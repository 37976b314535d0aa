/**
 * String helpers the client relies on: Python's `str.strip()` with no
 * argument, and the decimal rendering `str()` gives an integer.
 */
module Text {

  import opened Wrappers

  /** The characters Python's `str.isspace()` accepts, which `str.strip()` removes. */
  predicate IsSpace(c: char)
  {
    || ('\t' <= c <= '\r')                 // \t \n \x0b \x0c \r
    || ('\U{1C}' <= c <= '\U{1F}')          // file, group, record and unit separators
    || c == ' '
    || c == '\U{85}' || c == '\U{A0}' || c == '\U{1680}'
    || ('\U{2000}' <= c <= '\U{200A}')
    || c == '\U{2028}' || c == '\U{2029}' || c == '\U{202F}' || c == '\U{205F}' || c == '\U{3000}'
  }

  /** Drops the leading whitespace of `s`. */
  function TrimStart(s: string): (r: string)
    ensures |r| <= |s| && r == s[|s| - |r|..]
    ensures forall k :: 0 <= k < |s| - |r| ==> IsSpace(s[k])
    ensures |r| > 0 ==> !IsSpace(r[0])
    decreases |s|
  {
    if |s| > 0 && IsSpace(s[0]) then TrimStart(s[1..]) else s
  }

  /** Drops the trailing whitespace of `s`. */
  function TrimEnd(s: string): (r: string)
    ensures |r| <= |s| && r == s[..|r|]
    ensures forall k :: |r| <= k < |s| ==> IsSpace(s[k])
    ensures |r| > 0 ==> !IsSpace(r[|r| - 1])
    decreases |s|
  {
    if |s| > 0 && IsSpace(s[|s| - 1]) then TrimEnd(s[..|s| - 1]) else s
  }

  /** Python's `s.strip()`: both ends lose their whitespace; `StripKeepsMiddle` says the middle is kept. */
  function Strip(s: string): (r: string)
    ensures |r| <= |s|
    ensures |r| > 0 ==> !IsSpace(r[0]) && !IsSpace(r[|r| - 1])
    ensures r == [] <==> forall k :: 0 <= k < |s| ==> IsSpace(s[k])
  {
    var t := TrimStart(s);
    var r := TrimEnd(t);
    assert |r| > 0 ==> r[0] == t[0];
    if r == [] then
      assert |t| == 0;
      r
    else
      assert !IsSpace(r[|r| - 1]);
      assert r[|r| - 1] == s[|s| - |t| + |r| - 1];
      r
  }

  /**
   * The strip of `s` is the slice of `s` that starts after its leading
   * whitespace, and everything of `s` outside that slice is whitespace.
   */
  lemma StripKeepsMiddle(s: string)
    ensures var r := Strip(s); var i := |s| - |TrimStart(s)|;
            && i + |r| <= |s|
            && (forall k :: 0 <= k < |r| ==> r[k] == s[i + k])
            && (forall k :: 0 <= k < i ==> IsSpace(s[k]))
            && (forall k :: i + |r| <= k < |s| ==> IsSpace(s[k]))
  {
    StripMiddle(s);
  }

  /** The trimmed text is the slice of `s` after the leading whitespace, followed in `s` only by whitespace. */
  lemma StripMiddle(s: string)
    ensures var t := TrimStart(s); var r := TrimEnd(t); var i := |s| - |t|;
            && i + |r| <= |s|
            && (forall k :: 0 <= k < |r| ==> r[k] == s[i + k])
            && (forall k :: i + |r| <= k < |s| ==> IsSpace(s[k]))
  {
    var t := TrimStart(s);
    var r := TrimEnd(t);
    var i := |s| - |t|;
    assert t == s[i..];
    assert r == t[..|r|];
    forall k | 0 <= k < |r| ensures r[k] == s[i + k] {
      assert r[k] == t[k];
    }
    forall k | i + |r| <= k < |s| ensures IsSpace(s[k]) {
      assert s[k] == t[k - i] && IsSpace(t[k - i]);
    }
  }

  /** A string with no whitespace at either end is its own strip. */
  lemma StripKeepsTrimmed(s: string)
    requires |s| > 0 ==> !IsSpace(s[0]) && !IsSpace(s[|s| - 1])
    ensures Strip(s) == s
  {
  }

  /** Stripping twice is stripping once. */
  lemma StripIdempotent(s: string)
    ensures Strip(Strip(s)) == Strip(s)
  {
    StripKeepsTrimmed(Strip(s));
  }

  /** When `s` starts with a visible character only its end is trimmed. */
  lemma StripOfVisibleStart(s: string)
    requires |s| > 0 && !IsSpace(s[0])
    ensures Strip(s) == TrimEnd(s)
  {
  }

  /** When `s` does not start with whitespace, its strip is a prefix of it followed only by whitespace. */
  lemma StripTrimsOnlyEnd(s: string)
    requires |s| > 0 && !IsSpace(s[0])
    ensures var r := Strip(s);
            && |r| <= |s|
            && r == s[..|r|]
            && (forall k :: |r| <= k < |s| ==> IsSpace(s[k]))
  {
    var t := TrimEnd(s);
    assert t == s[..|t|] && forall k :: |t| <= k < |s| ==> IsSpace(s[k]);
    StripOfVisibleStart(s);
  }

  /** Trailing whitespace appended to `s` is trimmed away again. */
  lemma {:induction false} TrimEndAppendSpace(s: string, w: string)
    requires forall k :: 0 <= k < |w| ==> IsSpace(w[k])
    ensures TrimEnd(s + w) == TrimEnd(s)
    decreases |w|
  {
    if |w| > 0 {
      var u := s + w;
      assert u[..|u| - 1] == s + w[..|w| - 1];
      TrimEndAppendSpace(s, w[..|w| - 1]);
    } else {
      assert s + w == s;
    }
  }

  predicate IsDigit(c: char)
  {
    '0' <= c <= '9'
  }

  function DigitChar(d: nat): (c: char)
    requires d < 10
    ensures IsDigit(c) && c as int - '0' as int == d
  {
    (d + '0' as int) as char
  }

  /** The decimal digits of `n` with no leading zero, as Python's `str()` writes a non-negative int. */
  function Digits(n: nat): (r: string)
    ensures |r| >= 1
    ensures forall k :: 0 <= k < |r| ==> IsDigit(r[k])
    ensures |r| > 1 ==> r[0] != '0'
    ensures ParseDigits(r) == n
  {
    if n < 10 then [DigitChar(n)]
    else
      var front := Digits(n / 10);
      var r := front + [DigitChar(n % 10)];
      assert r[..|r| - 1] == front;
      r
  }

  /** Reads a string of decimal digits back as a number (the empty string reads as 0). */
  function ParseDigits(s: string): (n: nat)
    requires forall k :: 0 <= k < |s| ==> IsDigit(s[k])
  {
    if |s| == 0 then 0
    else
      assert IsDigit(s[|s| - 1]);
      ParseDigits(s[..|s| - 1]) * 10 + (s[|s| - 1] as int - '0' as int)
  }

  /** Python's `str(n)` of an int: a minus sign for negatives, then the digits. */
  function Decimal(n: int): (r: string)
    ensures |r| >= 1
    ensures ParseDecimal(r) == Some(n)
    ensures (r[0] == '-') <==> n < 0
    ensures var d := if n < 0 then r[1..] else r; |d| >= 1 && (|d| > 1 ==> d[0] != '0')
  {
    if n < 0 then "-" + Digits(-n) else Digits(n)
  }

  /** The integer a decimal text denotes, if it is one; the partner of `Decimal`. */
  function ParseDecimal(s: string): (r: Option<int>)
  {
    if |s| > 0 && s[0] == '-' then
      if |s| > 1 && forall k :: 1 <= k < |s| ==> IsDigit(s[k]) then Some(0 - ParseDigits(s[1..])) else None
    else if |s| > 0 && forall k :: 0 <= k < |s| ==> IsDigit(s[k]) then Some(ParseDigits(s))
    else None
  }
}
