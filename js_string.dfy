/** The few ECMAScript string built-ins the core relies on: the whitespace class shared by
    the regular-expression escape `\s` and `String.prototype.trim`, `trim` itself,
    `toLowerCase` (ASCII letters only), `endsWith`, and the decimal rendering of an
    integer that a template literal such as `${value}%` produces. */
module JsString {
  import opened Wrappers

  /** JavaScript truthiness of a string that may be absent (`null`): present and not empty. */
  predicate Truthy(s: Option<string>) {
    s.Some? && s.value != ""
  }

  /** A thrown value: an `Error` instance (with its message) or any other value. */
  datatype Thrown = ErrorInstance(message: string) | OtherValue

  /** `e instanceof Error ? e.message : fallback`. */
  function ErrorMessage(e: Thrown, fallback: string): string {
    match e
    case ErrorInstance(message) => message
    case OtherValue => fallback
  }

  /** WhiteSpace (section 12.2) and LineTerminator (section 12.3) of ECMA-262, 2023 edition:
      TAB, VT, FF, ZWNBSP, every space separator of Unicode category Zs, LF, CR, LS and PS.
      Both `\s` and `trim()` use exactly this set. */
  predicate IsWhitespace(c: char) {
    c == '\t' || c == '\n' || c == '\U{000B}' || c == '\U{000C}' || c == '\r' ||
    c == ' ' || c == '\U{00A0}' || c == '\U{1680}' || ('\U{2000}' <= c <= '\U{200A}') ||
    c == '\U{2028}' || c == '\U{2029}' || c == '\U{202F}' || c == '\U{205F}' ||
    c == '\U{3000}' || c == '\U{FEFF}'
  }

  /** Every character of s[lo..hi] is whitespace. */
  predicate AllWhitespace(s: string, lo: nat, hi: nat)
    requires lo <= hi <= |s|
  {
    forall k :: lo <= k < hi ==> IsWhitespace(s[k])
  }

  /** A string with no whitespace at either end. */
  predicate Trimmed(s: string) {
    s == [] || (!IsWhitespace(s[0]) && !IsWhitespace(s[|s| - 1]))
  }

  /** The leading-whitespace half of `trim`; TrimStartIsSuffix says which part of `s` it is. */
  function TrimStart(s: string): (r: string)
    ensures |r| <= |s|
    ensures r == [] || !IsWhitespace(r[0])
  {
    if s != [] && IsWhitespace(s[0]) then TrimStart(s[1..]) else s
  }

  /** `TrimStart` drops a whitespace prefix and keeps the rest. */
  lemma {:induction false} TrimStartIsSuffix(s: string)
    ensures TrimStart(s) == s[|s| - |TrimStart(s)|..]
    ensures AllWhitespace(s, 0, |s| - |TrimStart(s)|)
  {
    if s != [] && IsWhitespace(s[0]) {
      TrimStartIsSuffix(s[1..]);
      var n := |s| - |TrimStart(s)|;
      forall k | 0 <= k < n ensures IsWhitespace(s[k]) {
        if k > 0 {
          assert s[k] == s[1..][k - 1];
        }
      }
    }
  }

  /** The trailing-whitespace half of `trim`; TrimEndIsPrefix says which part of `s` it is. */
  function TrimEnd(s: string): (r: string)
    ensures |r| <= |s|
    ensures r == [] || !IsWhitespace(r[|r| - 1])
  {
    if s != [] && IsWhitespace(s[|s| - 1]) then TrimEnd(s[..|s| - 1]) else s
  }

  /** `TrimEnd` keeps a prefix and drops a whitespace suffix. */
  lemma {:induction false} TrimEndIsPrefix(s: string)
    ensures TrimEnd(s) == s[..|TrimEnd(s)|]
    ensures AllWhitespace(s, |TrimEnd(s)|, |s|)
  {
    if s != [] && IsWhitespace(s[|s| - 1]) {
      TrimEndIsPrefix(s[..|s| - 1]);
    }
  }

  /** `String.prototype.trim`: what is left of `s` once a whitespace prefix and a whitespace
      suffix are removed; TrimIsInfix and TrimRemovesPadding say which part of `s` it is. */
  function Trim(s: string): (r: string)
    ensures Trimmed(r)
    ensures Lead(s) + |r| <= |s|
  {
    var t := TrimStart(s);
    TrimEndIsPrefix(t);
    TrimEnd(t)
  }

  /** Number of leading whitespace characters of `s`. */
  function Lead(s: string): (n: nat)
    ensures n <= |s|
  {
    |s| - |TrimStart(s)|
  }

  /** `trim` returns the infix of `s` that starts after the leading whitespace. */
  lemma TrimIsInfix(s: string)
    ensures Trim(s) == s[Lead(s)..Lead(s) + |Trim(s)|]
  {
    var t := TrimStart(s);
    TrimStartIsSuffix(s);
    TrimEndIsPrefix(t);
    assert t == s[Lead(s)..];
  }

  /** What `trim` removes is whitespace. */
  lemma TrimRemovesPadding(s: string)
    ensures AllWhitespace(s, 0, Lead(s)) && AllWhitespace(s, Lead(s) + |Trim(s)|, |s|)
  {
    var t := TrimStart(s);
    var r := TrimEnd(t);
    var L := Lead(s);
    TrimStartIsSuffix(s);
    TrimEndIsPrefix(t);
    assert t == s[L..];
    assert AllWhitespace(t, |r|, |t|);
    forall k | L + |r| <= k < |s| ensures IsWhitespace(s[k]) {
      assert t[k - L] == s[k];
    }
  }

  /** `trim` leaves a string without surrounding whitespace unchanged. */
  lemma TrimOfTrimmed(s: string)
    requires Trimmed(s)
    ensures Trim(s) == s
  {
    assert TrimStart(s) == s;
    assert TrimEnd(s) == s;
  }

  /** `trim` removes exactly a whitespace prefix and a whitespace suffix: whatever infix is left
      between such padding, if it has no whitespace at its ends, is the result. */
  lemma TrimOfPadded(x: string, lo: nat, hi: nat)
    requires lo <= hi <= |x|
    requires AllWhitespace(x, 0, lo) && AllWhitespace(x, hi, |x|)
    requires Trimmed(x[lo..hi])
    ensures Trim(x) == x[lo..hi]
  {
    var r, L := Trim(x), Lead(x);
    TrimIsInfix(x);
    TrimRemovesPadding(x);
    if r != [] && lo < hi {
      assert x[L] == r[0] && x[L + |r| - 1] == r[|r| - 1];
      assert x[lo] == x[lo..hi][0] && x[hi - 1] == x[lo..hi][hi - lo - 1];
      assert L == lo;
      assert L + |r| == hi;
    }
  }

  /** `trim` of a region whose ends are whitespace runs around an already trimmed infix. */
  lemma TrimOfRegion(s: string, start: nat, b: nat, e: nat, j: nat)
    requires start <= b <= e <= j <= |s|
    requires AllWhitespace(s, start, b) && AllWhitespace(s, e, j)
    requires Trimmed(s[b..e])
    ensures Trim(s[start..j]) == s[b..e]
  {
    var x := s[start..j];
    var lo, hi := b - start, e - start;
    assert x[lo..hi] == s[b..e] by {
      forall k | 0 <= k < hi - lo ensures x[lo..hi][k] == s[b..e][k] {
        assert x[lo + k] == s[b + k];
      }
    }
    assert AllWhitespace(x, 0, lo) by {
      forall k | 0 <= k < lo ensures IsWhitespace(x[k]) {
        assert x[k] == s[start + k];
      }
    }
    assert AllWhitespace(x, hi, |x|) by {
      forall k | hi <= k < |x| ensures IsWhitespace(x[k]) {
        assert x[k] == s[start + k];
      }
    }
    TrimOfPadded(x, lo, hi);
  }

  /** `trim` is idempotent. */
  lemma TrimIdempotent(s: string)
    ensures Trim(Trim(s)) == Trim(s)
  {
    TrimOfTrimmed(Trim(s));
  }

  /** ASCII part of `toLowerCase`: 'A'..'Z' become 'a'..'z', everything else is kept. */
  function LowerChar(c: char): char {
    if 'A' <= c <= 'Z' then (c as int + 32) as char else c
  }

  /** `String.prototype.toLowerCase`, restricted to ASCII case folding. */
  function ToLower(s: string): (r: string)
    ensures |r| == |s|
    ensures forall k :: 0 <= k < |s| ==> r[k] == LowerChar(s[k])
  {
    if s == [] then [] else [LowerChar(s[0])] + ToLower(s[1..])
  }

  /** Lower-casing distributes over concatenation. */
  lemma ToLowerAppend(a: string, b: string)
    ensures ToLower(a + b) == ToLower(a) + ToLower(b)
  {
  }

  /** `String.prototype.endsWith`. */
  predicate EndsWith(s: string, suffix: string) {
    |suffix| <= |s| && s[|s| - |suffix|..] == suffix
  }

  function DigitChar(d: nat): char
    requires d < 10
  {
    ('0' as int + d) as char
  }

  predicate IsDigit(c: char) {
    '0' <= c <= '9'
  }

  function DigitValue(c: char): nat
    requires IsDigit(c)
  {
    c as int - '0' as int
  }

  /** Decimal digits of a natural number, most significant first, without leading zeros. */
  function NatToDecimal(n: nat): (r: string)
    ensures r != [] && forall k :: 0 <= k < |r| ==> IsDigit(r[k])
    ensures |r| > 1 ==> r[0] != '0'
  {
    if n < 10 then [DigitChar(n)] else NatToDecimal(n / 10) + [DigitChar(n % 10)]
  }

  /** How `${n}` renders a JavaScript number holding the integer n, for |n| below 10^21
      (larger magnitudes switch to exponent notation). */
  function IntToDecimal(n: int): (r: string)
    ensures r != []
  {
    if n < 0 then "-" + NatToDecimal(-n) else NatToDecimal(n)
  }

  /** The value of a string of decimal digits (the reference reading of a rendering). */
  function DecimalValue(s: string): nat
    requires forall k :: 0 <= k < |s| ==> IsDigit(s[k])
  {
    if s == [] then 0 else 10 * DecimalValue(s[..|s| - 1]) + DigitValue(s[|s| - 1])
  }

  /** Reading back the rendering of a natural number gives the number. */
  lemma {:induction false} NatToDecimalRoundTrip(n: nat)
    ensures DecimalValue(NatToDecimal(n)) == n
  {
    if n >= 10 {
      var prefix := NatToDecimal(n / 10);
      var r := NatToDecimal(n);
      assert r[..|r| - 1] == prefix;
      NatToDecimalRoundTrip(n / 10);
    }
  }

  /** Reads an optional minus sign followed by decimal digits. */
  function ReadDecimal(s: string): (v: int)
    requires s != []
    requires forall k :: 0 < k < |s| ==> IsDigit(s[k])
    requires s[0] == '-' || IsDigit(s[0])
  {
    if s[0] == '-' then 0 - DecimalValue(s[1..]) else DecimalValue(s)
  }

  /** Reading back the rendering of an integer gives the integer. */
  lemma IntToDecimalRoundTrip(n: int)
    ensures var r := IntToDecimal(n);
      (forall k :: 0 < k < |r| ==> IsDigit(r[k])) && (r[0] == '-' || IsDigit(r[0])) &&
      ReadDecimal(r) == n
  {
    var r := IntToDecimal(n);
    if n < 0 {
      var d := NatToDecimal(-n);
      assert r == "-" + d;
      assert r[1..] == d;
      assert forall k :: 0 < k < |r| ==> r[k] == d[k - 1];
      NatToDecimalRoundTrip(-n);
    } else {
      NatToDecimalRoundTrip(n);
    }
  }

  /** Distinct integers render differently. */
  lemma IntToDecimalInjective(m: int, n: int)
    requires IntToDecimal(m) == IntToDecimal(n)
    ensures m == n
  {
    IntToDecimalRoundTrip(m);
    IntToDecimalRoundTrip(n);
  }
}
