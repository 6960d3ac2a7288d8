/**
 * String helpers for the JavaScript operations the core uses: `${n}` on a
 * non-negative integer, ASCII `toLowerCase`, `split(sep)[0]`, and the `||`
 * defaulting of possibly-missing strings and numbers.
 */
module JsText {
  import opened Wrappers

  // ---------------------------------------------------------------- truthiness

  /** A string value is truthy in JavaScript when present and non-empty. */
  predicate Truthy(s: Option<string>) {
    s.Some? && s.value != ""
  }

  /** `s || d` for a possibly-missing string. */
  function OrElse(s: Option<string>, d: string): (r: string)
    ensures Truthy(s) ==> r == s.value
    ensures !Truthy(s) ==> r == d
  {
    if Truthy(s) then s.value else d
  }

  /** A number is truthy when present and non-zero (NaN is not modelled). */
  predicate NumTruthy<N(==)>(n: Option<N>, zero: N) {
    n.Some? && n.value != zero
  }

  /** `n || d` for a possibly-missing integer. */
  function IntOr(n: Option<int>, d: int): int {
    if NumTruthy(n, 0) then n.value else d
  }

  /** `n || d` for a possibly-missing real. */
  function RealOr(n: Option<real>, d: real): real {
    if NumTruthy(n, 0.0) then n.value else d
  }

  // ---------------------------------------------------------------- decimal digits

  predicate IsDigit(c: char) {
    '0' <= c <= '9'
  }

  predicate AllDigits(s: string) {
    forall i :: 0 <= i < |s| ==> IsDigit(s[i])
  }

  function DigitChar(d: nat): (c: char)
    requires d < 10
    ensures IsDigit(c)
  {
    ('0' as int + d) as char
  }

  function DigitValue(c: char): (d: nat)
    requires IsDigit(c)
    ensures d < 10 && DigitChar(d) == c
  {
    (c as int - '0' as int) as nat
  }

  /** `${n}` for a non-negative integer below 10^21 (plain decimal, no sign). */
  function NatToString(n: nat): (r: string)
    ensures r != [] && AllDigits(r)
  {
    if n < 10 then [DigitChar(n)] else NatToString(n / 10) + [DigitChar(n % 10)]
  }

  /** `${n}` for any integer. */
  function IntToString(n: int): string {
    if n < 0 then "-" + NatToString(-n) else NatToString(n)
  }

  /** The value of a string of decimal digits (the inverse of NatToString). */
  function DigitsValue(s: string): nat
    requires AllDigits(s)
  {
    if s == [] then 0 else 10 * DigitsValue(s[..|s| - 1]) + DigitValue(s[|s| - 1])
  }

  /** Parses a non-empty decimal string. */
  function ParseNat(s: string): (r: Option<nat>)
    ensures r.Some? <==> s != [] && AllDigits(s)
  {
    if s != [] && AllDigits(s) then Some(DigitsValue(s)) else None
  }

  /** Decimal rendering is undone by parsing: the timestamp is recoverable. */
  lemma {:induction false} NatToStringRoundTrip(n: nat)
    ensures ParseNat(NatToString(n)) == Some(n)
  {
    var s := NatToString(n);
    if n >= 10 {
      var q, d := n / 10, n % 10;
      NatToStringRoundTrip(q);
      assert s == NatToString(q) + [DigitChar(d)];
      assert s[..|s| - 1] == NatToString(q);
      assert DigitValue(s[|s| - 1]) == d;
      assert DigitsValue(s) == 10 * q + d;
    } else {
      assert DigitValue(s[0]) == n;
    }
  }

  // ---------------------------------------------------------------- ASCII case

  function LowerChar(c: char): (r: char) {
    if 'A' <= c <= 'Z' then (c as int + 32) as char else c
  }

  /** ASCII `toLowerCase`: maps each upper-case letter to its lower-case form. */
  function Lower(s: string): string {
    if s == [] then [] else [LowerChar(s[0])] + Lower(s[1..])
  }

  /** Lowering keeps the length and lowers each character on its own. */
  lemma {:induction false} LowerSpec(s: string)
    ensures |Lower(s)| == |s|
    ensures forall i :: 0 <= i < |s| ==> Lower(s)[i] == LowerChar(s[i])
  {
    if s != [] {
      LowerSpec(s[1..]);
    }
  }

  /** Lowering commutes with concatenation, so `${a}-${b}`.toLowerCase() lowers each part. */
  lemma {:induction false} LowerConcat(a: string, b: string)
    ensures Lower(a + b) == Lower(a) + Lower(b)
  {
    if a == [] {
      assert a + b == b;
    } else {
      assert (a + b)[1..] == a[1..] + b;
      LowerConcat(a[1..], b);
    }
  }

  /** Lowering leaves digits, '-' and lower-case text alone. */
  lemma {:induction false} LowerFixes(s: string)
    requires forall i :: 0 <= i < |s| ==> !('A' <= s[i] <= 'Z')
    ensures Lower(s) == s
  {
    if s != [] {
      LowerFixes(s[1..]);
    }
  }

  /** Lowering twice is lowering once. */
  lemma LowerIdempotent(s: string)
    ensures Lower(Lower(s)) == Lower(s)
  {
    LowerSpec(s);
    LowerFixes(Lower(s));
  }

  // ---------------------------------------------------------------- split

  /** `s.split(sep)[0]`: everything before the first `sep`, or all of `s`. */
  function BeforeFirst(s: string, sep: char): (r: string)
    ensures |r| <= |s| && r == s[..|r|]
    ensures sep !in r
    ensures |r| < |s| ==> s[|r|] == sep
  {
    if s == [] then []
    else if s[0] == sep then []
    else [s[0]] + BeforeFirst(s[1..], sep)
  }

  /** Text after the last '-' (the whole string when it has none). */
  function AfterLastDash(s: string): (r: string)
    ensures '-' !in r
  {
    if s == [] then []
    else if s[|s| - 1] == '-' then []
    else AfterLastDash(s[..|s| - 1]) + [s[|s| - 1]]
  }

  /** The segment after the last '-' of `a + "-" + d` is `d`, when `d` has no '-'. */
  lemma {:induction false} AfterLastDashOfJoin(a: string, d: string)
    requires '-' !in d
    ensures AfterLastDash(a + "-" + d) == d
  {
    if d != [] {
      var s := a + "-" + d;
      assert s[..|s| - 1] == a + "-" + d[..|d| - 1];
      assert s[|s| - 1] == d[|d| - 1];
      AfterLastDashOfJoin(a, d[..|d| - 1]);
      assert d[..|d| - 1] + [d[|d| - 1]] == d;
    } else {
      assert (a + "-" + d)[|a|] == '-';
    }
  }

  // ---------------------------------------------------------------- URLs

  /** `url.replace(/\/$/, '')`: drops one trailing '/', if there is one. */
  function StripTrailingSlash(url: string): (r: string)
    ensures |url| > 0 && url[|url| - 1] == '/' ==> r + "/" == url
    ensures !(|url| > 0 && url[|url| - 1] == '/') ==> r == url
  {
    if |url| > 0 && url[|url| - 1] == '/' then url[..|url| - 1] else url
  }

  /** Adding a trailing '/' and stripping it gives the URL back. */
  lemma StripTrailingSlashInverse(url: string)
    ensures StripTrailingSlash(url + "/") == url
  {
  }

  /** Only one slash goes: "x//" becomes "x/", so stripping is not idempotent. */
  lemma StripTrailingSlashOnce(url: string)
    ensures StripTrailingSlash(url + "//") == url + "/"
  {
    assert (url + "//")[..|url| + 1] == url + "/";
  }
}
