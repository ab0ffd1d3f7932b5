/**
 * The two pieces of `MainActivity` logic that are not Android plumbing: the
 * power-of-two down-sampling factor chosen before a preview is decoded, and
 * the reading of the gap text typed by the user.
 */
module MainActivity {
  import opened Numerics
  import opened Graphics

  /** The preview decode request: at most 800 by 600 pixels. */
  const PreviewRequestWidth := 800
  const PreviewRequestHeight := 600

  /** Kotlin `a / s` on Int for a positive divisor: truncated toward zero. */
  function Div(a: int, s: int): (q: int)
    requires s > 0
    ensures a >= 0 ==> 0 <= q && q * s <= a < q * s + s
    ensures a < 0 ==> q <= 0 && q * s - s < a <= q * s
  {
    if a >= 0 then a / s else -((-a) / s)
  }

  ghost predicate IsPowerOfTwo(n: int)
    decreases if n > 0 then n else 0
  {
    n == 1 || (n > 1 && n % 2 == 0 && IsPowerOfTwo(n / 2))
  }

  /** The doubling loop's condition: both halved sides, divided by `s`, still reach the request. */
  predicate KeepsDoubling(height: int, width: int, reqWidth: int, reqHeight: int, s: int)
    requires s > 0
  {
    Div(Half(height), s) >= reqHeight && Div(Half(width), s) >= reqWidth
  }

  /**
   * `calculateInSampleSize`. A source no larger than the request is decoded at
   * full size. Otherwise the factor is the first power of two at which the
   * loop condition fails: every smaller power of two still satisfies it, so
   * decoding at half the result would still meet the request on both sides.
   */
  method CalculateInSampleSize(outWidth: int, outHeight: int, reqWidth: int, reqHeight: int)
    returns (inSampleSize: int)
    requires reqWidth > 0 || reqHeight > 0
    ensures inSampleSize >= 1 && IsPowerOfTwo(inSampleSize)
    ensures !(outHeight > reqHeight || outWidth > reqWidth) ==> inSampleSize == 1
    ensures outHeight > reqHeight || outWidth > reqWidth ==>
      && !KeepsDoubling(outHeight, outWidth, reqWidth, reqHeight, inSampleSize)
      && forall p :: IsPowerOfTwo(p) && p < inSampleSize ==> p > 0 && KeepsDoubling(outHeight, outWidth, reqWidth, reqHeight, p)
    ensures inSampleSize > 1 ==> KeepsDoubling(outHeight, outWidth, reqWidth, reqHeight, inSampleSize / 2)
  {
    var height, width := outHeight, outWidth;
    inSampleSize := 1;
    if height > reqHeight || width > reqWidth {
      var halfHeight := Half(height);
      var halfWidth := Half(width);
      // `halfHeight / inSampleSize >= reqHeight && halfWidth / inSampleSize >= reqWidth`
      while KeepsDoubling(height, width, reqWidth, reqHeight, inSampleSize)
        invariant inSampleSize >= 1 && IsPowerOfTwo(inSampleSize)
        invariant forall p :: IsPowerOfTwo(p) && p < inSampleSize ==> p > 0 && KeepsDoubling(height, width, reqWidth, reqHeight, p)
        decreases (if reqHeight > 0 then halfHeight else halfWidth) - inSampleSize
      {
        DoublingStep(height, width, reqWidth, reqHeight, inSampleSize);
        inSampleSize := 2 * inSampleSize;
      }
    }
    if inSampleSize > 1 {
      HalfStillDoubles(height, width, reqWidth, reqHeight, inSampleSize);
    }
  }

  /**
   * The preview decode: the bounds of the chosen image are sampled against
   * the fixed 800 by 600 request. A source within 800 by 600 is decoded whole;
   * a larger one at the first power of two that halves it below the request.
   */
  method PreviewSampleSize(outWidth: int, outHeight: int) returns (inSampleSize: int)
    ensures inSampleSize >= 1 && IsPowerOfTwo(inSampleSize)
    ensures outWidth <= PreviewRequestWidth && outHeight <= PreviewRequestHeight ==> inSampleSize == 1
    ensures outWidth > PreviewRequestWidth || outHeight > PreviewRequestHeight ==>
      !KeepsDoubling(outHeight, outWidth, PreviewRequestWidth, PreviewRequestHeight, inSampleSize)
    ensures inSampleSize > 1 ==>
      && Div(Half(outWidth), inSampleSize / 2) >= PreviewRequestWidth
      && Div(Half(outHeight), inSampleSize / 2) >= PreviewRequestHeight
  {
    inSampleSize := CalculateInSampleSize(outWidth, outHeight, PreviewRequestWidth, PreviewRequestHeight);
  }

  /** One pass of the loop: the doubled factor is a power of two, and the factor stays below the halved side. */
  lemma DoublingStep(height: int, width: int, reqWidth: int, reqHeight: int, s: int)
    requires reqWidth > 0 || reqHeight > 0
    requires s >= 1 && IsPowerOfTwo(s) && KeepsDoubling(height, width, reqWidth, reqHeight, s)
    requires forall p :: IsPowerOfTwo(p) && p < s ==> p > 0 && KeepsDoubling(height, width, reqWidth, reqHeight, p)
    ensures IsPowerOfTwo(2 * s)
    ensures s <= if reqHeight > 0 then Half(height) else Half(width)
    ensures forall p :: IsPowerOfTwo(p) && p < 2 * s ==> p > 0 && KeepsDoubling(height, width, reqWidth, reqHeight, p)
  {
    DoublingBounded(height, width, reqWidth, reqHeight, s);
    DoublingKeepsMinimal(height, width, reqWidth, reqHeight, s);
  }

  /** When the loop has doubled at least once, half the final factor still met the loop condition. */
  lemma HalfStillDoubles(height: int, width: int, reqWidth: int, reqHeight: int, s: int)
    requires s > 1 && IsPowerOfTwo(s)
    requires forall p :: IsPowerOfTwo(p) && p < s ==> p > 0 && KeepsDoubling(height, width, reqWidth, reqHeight, p)
    ensures KeepsDoubling(height, width, reqWidth, reqHeight, s / 2)
  {
    HalfOfPower(s);
  }

  /** One more doubling: every power of two below `2 * s` satisfies the loop condition. */
  lemma DoublingKeepsMinimal(height: int, width: int, reqWidth: int, reqHeight: int, s: int)
    requires s >= 1 && IsPowerOfTwo(s) && KeepsDoubling(height, width, reqWidth, reqHeight, s)
    requires forall p :: IsPowerOfTwo(p) && p < s ==> p > 0 && KeepsDoubling(height, width, reqWidth, reqHeight, p)
    ensures forall p :: IsPowerOfTwo(p) && p < 2 * s ==> p > 0 && KeepsDoubling(height, width, reqWidth, reqHeight, p)
  {
    forall p | IsPowerOfTwo(p) && p < 2 * s
      ensures p > 0 && KeepsDoubling(height, width, reqWidth, reqHeight, p)
    {
      PowerBelowDouble(p, s);
    }
  }

  /** While the loop condition holds, the factor is at most the halved side whose request is positive. */
  lemma DoublingBounded(height: int, width: int, reqWidth: int, reqHeight: int, s: int)
    requires reqWidth > 0 || reqHeight > 0
    requires s > 0 && KeepsDoubling(height, width, reqWidth, reqHeight, s)
    ensures s <= if reqHeight > 0 then Half(height) else Half(width)
  {
    if reqHeight > 0 {
      QuotientReachesOne(Half(height), s, reqHeight);
    } else {
      QuotientReachesOne(Half(width), s, reqWidth);
    }
  }

  /** While the quotient still reaches a positive request, the divisor is at most the dividend. */
  lemma QuotientReachesOne(a: int, s: int, req: int)
    requires s > 0 && req > 0 && Div(a, s) >= req
    ensures s <= a
  {
    var q := a / s;
    assert a == q * s + a % s;
    IntMulAtLeast(q, s);
  }

  lemma IntMulAtLeast(q: int, s: int)
    requires q >= 1 && s > 0
    ensures q * s >= s
  {
  }

  /** No power of two lies strictly between `s` and `2 * s`. */
  lemma {:induction false} PowerBelowDouble(p: int, s: int)
    requires IsPowerOfTwo(p) && IsPowerOfTwo(s) && p < 2 * s
    ensures 0 < p <= s
    decreases s
  {
    if p > s && s > 1 {
      PowerBelowDouble(p / 2, s / 2);
    }
  }

  /** Half of a power of two above one is a smaller power of two. */
  lemma HalfOfPower(n: int)
    requires IsPowerOfTwo(n) && n > 1
    ensures IsPowerOfTwo(n / 2) && 0 < n / 2 < n
  {
  }

  /** Kotlin `Char.isWhitespace()`: Java whitespace plus the Unicode space separators. */
  predicate IsWhitespace(c: char)
    ensures IsDigit(c) || c == '-' || c == '+' ==> !IsWhitespace(c)
    ensures c == ' ' || c == '\t' || c == '\n' || c == '\r' || c == '\U{00A0}' || c == '\U{3000}' ==> IsWhitespace(c)
  {
    || ('\U{0009}' <= c <= '\U{000D}') || ('\U{001C}' <= c <= '\U{0020}')
    || c == '\U{00A0}' || c == '\U{1680}' || ('\U{2000}' <= c <= '\U{200A}')
    || c == '\U{2028}' || c == '\U{2029}' || c == '\U{202F}' || c == '\U{205F}' || c == '\U{3000}'
  }

  predicate AllWhitespace(s: string)
  {
    forall i :: 0 <= i < |s| ==> IsWhitespace(s[i])
  }

  /** Leading whitespace removed: a suffix of `s` that starts with a non-whitespace character, if any. */
  function TrimStart(s: string): (t: string)
    ensures |t| <= |s| && t == s[|s| - |t|..]
    ensures AllWhitespace(s[..|s| - |t|])
    ensures |t| > 0 ==> !IsWhitespace(t[0])
  {
    if |s| > 0 && IsWhitespace(s[0]) then
      var t := TrimStart(s[1..]);
      assert s[..|s| - |t|] == [s[0]] + s[1..][..|s[1..]| - |t|];
      t
    else s
  }

  /** Trailing whitespace removed: a prefix of `s` that ends with a non-whitespace character, if any. */
  function TrimEnd(s: string): (t: string)
    ensures |t| <= |s| && t == s[..|t|]
    ensures AllWhitespace(s[|t|..])
    ensures |t| > 0 ==> !IsWhitespace(t[|t| - 1])
  {
    if |s| > 0 && IsWhitespace(s[|s| - 1]) then
      var t := TrimEnd(s[..|s| - 1]);
      assert s[|t|..] == s[..|s| - 1][|t|..] + [s[|s| - 1]];
      t
    else s
  }

  /**
   * Kotlin `trim()`: whitespace removed from both ends. What is left is empty
   * or starts and ends with a non-whitespace character; `TrimPadded` and
   * `BlankTrimsToEmpty` say what is removed.
   */
  function Trim(s: string): (t: string)
    ensures |t| <= |s|
    ensures |t| > 0 ==> !IsWhitespace(t[0]) && !IsWhitespace(t[|t| - 1])
  {
    var u := TrimStart(s);
    var t := TrimEnd(u);
    if |t| > 0 then
      assert t[0] == u[0];
      t
    else t
  }

  predicate IsDigit(c: char)
  {
    '0' <= c <= '9'
  }

  predicate AllDigits(s: string)
  {
    forall i :: 0 <= i < |s| ==> IsDigit(s[i])
  }

  /** The value of a run of decimal digits, most significant first. */
  function DigitsValue(s: string): (v: nat)
    requires AllDigits(s)
    ensures v < Pow10(|s|)
  {
    if |s| == 0 then 0
    else 10 * DigitsValue(s[..|s| - 1]) + (s[|s| - 1] - '0') as int
  }

  /** Ten to the power `n`. */
  function Pow10(n: nat): (p: nat)
    ensures p >= 1
  {
    if n == 0 then 1 else 10 * Pow10(n - 1)
  }

  const MinInt32 := -0x8000_0000
  const MaxInt32 := 0x7FFF_FFFF

  /**
   * Kotlin `String.toInt()` (Java `Integer.parseInt`, radix 10): an optional
   * `-` or `+`, then at least one digit and nothing else, with a value that
   * fits an Int; anything else is a `NumberFormatException` (`None`).
   */
  function ParseInt(s: string): (r: Option<int>)
    ensures r.Some? ==> MinInt32 <= r.value <= MaxInt32
    ensures r.Some? ==> |s| > 0 && AllDigits(s[if s[0] == '-' || s[0] == '+' then 1 else 0..])
    ensures s == "" || s == "-" || s == "+" ==> r.None?
  {
    if |s| == 0 then None
    else
      var negative := s[0] == '-';
      var digits := if s[0] == '-' || s[0] == '+' then s[1..] else s;
      if |digits| == 0 || !AllDigits(digits) then None
      else
        var v := if negative then -(DigitsValue(digits) as int) else DigitsValue(digits);
        if MinInt32 <= v <= MaxInt32 then Some(v) else None
  }

  /** The gap typed by the user: trimmed, empty or unparsable text is 0, a valid Int is taken as is. */
  function ParseGap(text: string): (gap: int)
    ensures MinInt32 <= gap <= MaxInt32
    ensures Trim(text) == "" ==> gap == 0
    ensures ParseInt(Trim(text)).None? ==> gap == 0
    ensures ParseInt(Trim(text)).Some? ==> gap == ParseInt(Trim(text)).value
  {
    var gapInput := Trim(text);
    if |gapInput| == 0 then 0
    else
      match ParseInt(gapInput)
      case Some(v) => v
      case None => 0
  }

  /** The decimal digits of `n`, without leading zeros. */
  function Decimal(n: nat): (s: string)
    ensures |s| > 0 && AllDigits(s)
    ensures |s| > 1 ==> s[0] != '0'
  {
    if n < 10 then ['0' + n as char]
    else Decimal(n / 10) + ['0' + (n % 10) as char]
  }

  /** `n` written in decimal, with a leading `-` when negative. */
  function Format(n: int): (s: string)
    ensures |s| > 0 && !IsWhitespace(s[0]) && !IsWhitespace(s[|s| - 1])
  {
    if n < 0 then "-" + Decimal(-n) else Decimal(n)
  }

  lemma {:induction false} DecimalValue(n: nat)
    ensures DigitsValue(Decimal(n)) == n
  {
    var s := Decimal(n);
    if n >= 10 {
      assert s[..|s| - 1] == Decimal(n / 10);
      DecimalValue(n / 10);
    }
  }

  /** A leading `+` before a non-empty run of digits changes nothing. */
  lemma ParsePlus(digits: string)
    requires |digits| > 0 && AllDigits(digits)
    ensures ParseInt("+" + digits) == ParseInt(digits)
  {
    var p := "+" + digits;
    assert p[0] == '+' && p[1..] == digits;
    assert IsDigit(digits[0]);
  }

  /** A sign and a non-empty run of digits parse to the signed value when it fits an Int. */
  lemma ParseSigned(negative: bool, digits: string)
    requires |digits| > 0 && AllDigits(digits)
    ensures var v := if negative then -(DigitsValue(digits) as int) else DigitsValue(digits);
      ParseInt((if negative then "-" else "") + digits) == if MinInt32 <= v <= MaxInt32 then Some(v) else None
  {
    var s := (if negative then "-" else "") + digits;
    assert s[0] == '-' <==> negative;
    assert s[0] != '+';
    assert (if s[0] == '-' || s[0] == '+' then s[1..] else s) == digits;
  }

  /** Every Int written in decimal parses back to itself, and every other integer is rejected. */
  lemma ParseFormat(n: int)
    ensures MinInt32 <= n <= MaxInt32 ==> ParseInt(Format(n)) == Some(n)
    ensures n < MinInt32 || n > MaxInt32 ==> ParseInt(Format(n)).None?
    ensures 0 <= n <= MaxInt32 ==> ParseInt("+" + Format(n)) == Some(n)
  {
    var negative := n < 0;
    var digits := Decimal(if negative then -n else n);
    assert Format(n) == (if negative then "-" else "") + digits;
    DecimalValue(if negative then -n else n);
    ParseSigned(negative, digits);
    if !negative {
      ParsePlus(digits);
    }
  }

  /** Whitespace around a text with non-whitespace ends is exactly what `Trim` removes. */
  lemma {:induction false} TrimPadded(before: string, s: string, after: string)
    requires AllWhitespace(before) && AllWhitespace(after)
    requires |s| > 0 && !IsWhitespace(s[0]) && !IsWhitespace(s[|s| - 1])
    ensures Trim(before + s + after) == s
  {
    assert before + s + after == before + (s + after);
    assert (s + after)[0] == s[0];
    TrimStartPadded(before, s + after);
    TrimEndPadded(s, after);
    assert Trim(before + s + after) == TrimEnd(TrimStart(before + (s + after)));
  }

  lemma {:induction false} TrimStartPadded(before: string, s: string)
    requires AllWhitespace(before) && |s| > 0 && !IsWhitespace(s[0])
    ensures TrimStart(before + s) == s
    decreases |before|
  {
    if |before| > 0 {
      assert (before + s)[1..] == before[1..] + s;
      TrimStartPadded(before[1..], s);
    } else {
      assert before + s == s;
    }
  }

  lemma {:induction false} TrimEndPadded(s: string, after: string)
    requires AllWhitespace(after) && |s| > 0 && !IsWhitespace(s[|s| - 1])
    ensures TrimEnd(s + after) == s
    decreases |after|
  {
    if |after| > 0 {
      assert (s + after)[..|s + after| - 1] == s + after[..|after| - 1];
      TrimEndPadded(s, after[..|after| - 1]);
    } else {
      assert s + after == s;
    }
  }

  /**
   * The gap field round trip: any Int, written in decimal (a non-negative one
   * also with a leading `+`) and padded with whitespace, is read back as
   * itself; a decimal outside the Int range is read as 0; blank text is read
   * as 0.
   */
  lemma ParseGapOfFormat(before: string, n: int, after: string)
    requires AllWhitespace(before) && AllWhitespace(after)
    ensures MinInt32 <= n <= MaxInt32 ==> ParseGap(before + Format(n) + after) == n
    ensures n < MinInt32 || n > MaxInt32 ==> ParseGap(before + Format(n) + after) == 0
    ensures 0 <= n <= MaxInt32 ==> ParseGap(before + ("+" + Format(n)) + after) == n
    ensures ParseGap(before + after) == 0
  {
    TrimPadded(before, Format(n), after);
    var plus := "+" + Format(n);
    assert plus[0] == '+' && plus[|plus| - 1] == Format(n)[|Format(n)| - 1];
    TrimPadded(before, plus, after);
    ParseFormat(n);
    BlankTrimsToEmpty(before + after);
  }

  lemma BlankTrimsToEmpty(s: string)
    requires AllWhitespace(s)
    ensures Trim(s) == ""
  {
  }
}
