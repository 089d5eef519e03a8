/**
 * The Kotlin string operations the screens rely on: `contains(…, ignoreCase = true)`,
 * `isBlank`, and the decimal rendering of an `Int` used in string templates.
 */
module Text {
  import opened Options

  /** ASCII lower-casing; every other character is left as it is. */
  function LowerAscii(c: char): char {
    if 'A' <= c <= 'Z' then (c as int + 32) as char else c
  }

  /** Character equality with `ignoreCase = true`, restricted to ASCII letters. */
  predicate SameIgnoringCase(a: char, b: char) {
    LowerAscii(a) == LowerAscii(b)
  }

  /** `q` matches the start of `s`, character by character, ignoring case. */
  predicate RegionMatches(s: string, q: string) {
    |q| <= |s| && forall k :: 0 <= k < |q| ==> SameIgnoringCase(s[k], q[k])
  }

  /** Kotlin `s.contains(q, ignoreCase = true)`: try every start offset from the left. */
  predicate ContainsIgnoreCase(s: string, q: string)
    decreases |s|
  {
    RegionMatches(s, q) || (s != [] && ContainsIgnoreCase(s[1..], q))
  }

  /** The scan finds `q` exactly when `q` occurs, up to case, at some offset of `s`. */
  lemma {:induction false} ContainsIgnoreCaseIff(s: string, q: string)
    ensures ContainsIgnoreCase(s, q) <==> exists i :: 0 <= i <= |s| && RegionMatches(s[i..], q)
    decreases |s|
  {
    assert s[0..] == s;
    if s != [] {
      ContainsIgnoreCaseIff(s[1..], q);
      if ContainsIgnoreCase(s[1..], q) {
        var i :| 0 <= i <= |s[1..]| && RegionMatches(s[1..][i..], q);
        assert s[1..][i..] == s[i + 1..];
      }
      if exists i :: 0 <= i <= |s| && RegionMatches(s[i..], q) {
        var i :| 0 <= i <= |s| && RegionMatches(s[i..], q);
        if i > 0 {
          assert s[1..][i - 1..] == s[i..];
          assert RegionMatches(s[1..][i - 1..], q);
        }
      }
    }
  }

  /**
   * Case-insensitive containment is transitive: a string containing `mid` contains
   * everything `mid` contains.
   */
  lemma ContainsTransitive(s: string, mid: string, q: string)
    requires ContainsIgnoreCase(s, mid)
    requires ContainsIgnoreCase(mid, q)
    ensures ContainsIgnoreCase(s, q)
  {
    ContainsIgnoreCaseIff(s, mid);
    ContainsIgnoreCaseIff(mid, q);
    var i :| 0 <= i <= |s| && RegionMatches(s[i..], mid);
    var j :| 0 <= j <= |mid| && RegionMatches(mid[j..], q);
    forall k | 0 <= k < |q| ensures SameIgnoringCase(s[i + j..][k], q[k]) {
      assert mid[j..][k] == mid[j + k];
      assert s[i..][j + k] == s[i + j + k];
    }
    assert RegionMatches(s[i + j..], q);
    ContainsIgnoreCaseIff(s, q);
  }

  /** A query that contains a non-empty query is itself non-empty. */
  lemma ContainsNonEmpty(s: string, q: string)
    requires q != [] && ContainsIgnoreCase(s, q)
    ensures s != []
  {
    ContainsIgnoreCaseIff(s, q);
  }

  /**
   * Kotlin `Char.isWhitespace` on the JVM: Java's `isWhitespace` or `isSpaceChar`, i.e. the
   * controls U+0009..U+000D and U+001C..U+001F, and the space, line and paragraph separators.
   */
  predicate IsWhitespace(c: char) {
    var n := c as int;
    || n == 0x20
    || 0x09 <= n <= 0x0D
    || 0x1C <= n <= 0x1F
    || n == 0xA0
    || n == 0x1680
    || 0x2000 <= n <= 0x200A
    || n == 0x2028
    || n == 0x2029
    || n == 0x202F
    || n == 0x205F
    || n == 0x3000
  }

  /**
   * Kotlin `s.isBlank()`, as a scan from the front that stops at the first character that is
   * not whitespace: true exactly for the empty string and strings of whitespace only.
   */
  function IsBlank(s: string): (r: bool)
    ensures r <==> forall k :: 0 <= k < |s| ==> IsWhitespace(s[k])
    ensures !r <==> exists k :: 0 <= k < |s| && !IsWhitespace(s[k])
    ensures s == [] ==> r
  {
    if s == [] then true
    else if !IsWhitespace(s[0]) then false
    else
      var rest := IsBlank(s[1..]);
      assert forall k :: 1 <= k < |s| ==> s[k] == s[1..][k - 1];
      rest
  }

  predicate IsDigit(c: char) {
    '0' <= c <= '9'
  }

  function DigitChar(d: int): char
    requires 0 <= d < 10
  {
    ('0' as int + d) as char
  }

  /** A non-empty run of decimal digits with no leading zero (a lone "0" is allowed). */
  predicate CanonicalDigits(s: string) {
    && s != []
    && (forall k :: 0 <= k < |s| ==> IsDigit(s[k]))
    && (|s| > 1 ==> s[0] != '0')
  }

  /**
   * A numeral as Kotlin's `Int.toString` writes it: canonical digits, preceded by a minus
   * sign only for a non-zero value (never "-0").
   */
  predicate CanonicalDecimal(s: string) {
    if s != [] && s[0] == '-' then CanonicalDigits(s[1..]) && s[1] != '0'
    else CanonicalDigits(s)
  }

  /** Decimal digits of a natural number, most significant first, no leading zeros. */
  function NatToDecimal(n: nat): (r: string)
    ensures |r| >= 1
    ensures forall k :: 0 <= k < |r| ==> IsDigit(r[k])
    ensures n < 10 <==> |r| == 1
    ensures r[0] == '0' <==> n == 0
  {
    if n < 10 then [DigitChar(n)] else NatToDecimal(n / 10) + [DigitChar(n % 10)]
  }

  /** Kotlin `n.toString()` for an integer: an optional minus sign, then the digits. */
  function IntToDecimal(n: int): (r: string)
    ensures |r| >= 1
    ensures r[0] == '-' <==> n < 0
    ensures n >= 0 ==> IsDigit(r[0])
    ensures forall k :: 0 < k < |r| ==> IsDigit(r[k])
    ensures 0 <= n < 10 <==> |r| == 1
    ensures n >= 0 && |r| > 1 ==> r[0] != '0'
    ensures n < 0 ==> r[1] != '0'
    ensures CanonicalDecimal(r)
  {
    if n < 0 then
      var r := "-" + NatToDecimal(-n);
      assert r[1..] == NatToDecimal(-n);
      r
    else NatToDecimal(n)
  }

  /** Reads back a non-empty string of decimal digits. */
  function ParseNat(s: string): Option<nat>
    decreases |s|
  {
    if s == [] || !IsDigit(s[|s| - 1]) then None
    else
      var d := s[|s| - 1] as int - '0' as int;
      if |s| == 1 then Some(d)
      else match ParseNat(s[..|s| - 1])
        case None => None
        case Some(v) => Some(v * 10 + d)
  }

  /** Reads back an optional minus sign followed by decimal digits. */
  function ParseInt(s: string): Option<int> {
    if s != [] && s[0] == '-' then
      match ParseNat(s[1..])
      case None => None
      case Some(v) => Some(-(v as int))
    else
      match ParseNat(s)
      case None => None
      case Some(v) => Some(v)
  }

  lemma {:induction false} ParseNatRoundTrip(n: nat)
    ensures ParseNat(NatToDecimal(n)) == Some(n)
    decreases n
  {
    if n >= 10 {
      ParseNatRoundTrip(n / 10);
      var s := NatToDecimal(n);
      assert s[..|s| - 1] == NatToDecimal(n / 10);
    }
  }

  /** Decimal rendering and parsing are inverse: rendering loses no information. */
  lemma ParseIntRoundTrip(n: int)
    ensures ParseInt(IntToDecimal(n)) == Some(n)
  {
    var s := IntToDecimal(n);
    if n < 0 {
      ParseNatRoundTrip(-n);
      assert s[0] == '-' && s[1..] == NatToDecimal(-n);
    } else {
      ParseNatRoundTrip(n);
      assert s == NatToDecimal(n) && s[0] != '-';
    }
  }

  /** Canonical digits are the only digits that read back as their value. */
  lemma {:induction false} CanonicalDigitsUnique(s: string, n: nat)
    requires CanonicalDigits(s)
    requires ParseNat(s) == Some(n)
    ensures s == NatToDecimal(n)
    decreases |s|
  {
    var d := s[|s| - 1] as int - '0' as int;
    if |s| > 1 {
      var u := s[..|s| - 1];
      assert u[0] == s[0];
      var v :| ParseNat(u) == Some(v) && n == v * 10 + d;
      CanonicalDigitsUnique(u, v);
      assert v != 0;
      assert n / 10 == v && n % 10 == d;
      assert s == u + [s[|s| - 1]];
    }
  }

  /**
   * Kotlin's rendering is the only canonical numeral of a value: any canonical text that
   * reads back as `n` is `n.toString()`.
   */
  lemma CanonicalDecimalUnique(s: string, n: int)
    requires CanonicalDecimal(s)
    requires ParseInt(s) == Some(n)
    ensures s == IntToDecimal(n)
  {
    if s[0] == '-' {
      var v :| ParseNat(s[1..]) == Some(v) && n == -(v as int);
      CanonicalDigitsUnique(s[1..], v);
      assert v != 0;
      assert s == "-" + s[1..];
    } else {
      CanonicalDigitsUnique(s, n);
    }
  }

  /** Distinct integers render to distinct strings. */
  lemma IntToDecimalInjective(a: int, b: int)
    requires IntToDecimal(a) == IntToDecimal(b)
    ensures a == b
  {
    ParseIntRoundTrip(a);
    ParseIntRoundTrip(b);
  }
}
