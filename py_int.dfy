/**
 * Python's `int(s)` and `int(s, 16)` on strings, and the `hex(n)` and `str(n)`
 * renderings that produce what they read back.
 */
module PyInt {
  import opened Wrappers
  import opened PyText

  /** The two bases the reader parses in. */
  type Base = b: int | b == 10 || b == 16 witness 10

  /** A digit of `base`, either case for the hexadecimal letters. */
  predicate IsDigit(c: char, base: Base) {
    ('0' <= c <= '9') || (base == 16 && (('a' <= c <= 'f') || ('A' <= c <= 'F')))
  }

  /** The value of a digit character (0 for anything else). */
  function DigitValue(c: char): (v: nat)
    ensures v < 16
  {
    if '0' <= c <= '9' then c as int - '0' as int
    else if 'a' <= c <= 'f' then c as int - 'a' as int + 10
    else if 'A' <= c <= 'F' then c as int - 'A' as int + 10
    else 0
  }

  /**
   * The digits of a literal as CPython accepts them: at least one character,
   * only digits of `base` and underscores, no underscore first or last and
   * never two in a row.
   */
  predicate WellFormedDigits(s: string, base: Base) {
    && s != []
    && s[0] != '_'
    && forall i :: 0 <= i < |s| ==>
         IsDigit(s[i], base) || (s[i] == '_' && i + 1 < |s| && s[i + 1] != '_')
  }

  /** The number the digits of `s` spell in `base`, underscores skipped. */
  function DigitsValue(s: string, base: Base): nat {
    if s == [] then 0
    else if s[|s| - 1] == '_' then DigitsValue(s[..|s| - 1], base)
    else Shift(DigitsValue(s[..|s| - 1], base), base) + DigitValue(s[|s| - 1])
  }

  /** `x * base`, written per base so that the arithmetic stays linear. */
  function Shift(x: nat, base: Base): nat {
    if base == 10 then x * 10 else x * 16
  }

  /**
   * `int(s, base)`, `None` where Python raises `ValueError`: surrounding
   * whitespace, an optional sign, for base 16 an optional `0x`/`0X` prefix
   * that may be followed by one underscore, then the digits.
   */
  function ParseInt(s: string, base: Base): Option<int> {
    ParseSigned(TrimEnd(TrimStart(s, IsIntSpace), IsIntSpace), base)
  }

  /** A literal with its whitespace already removed: an optional sign, then the rest. */
  function ParseSigned(t: string, base: Base): Option<int> {
    var sign := SplitSign(t);
    match ParseUnsigned(sign.1, base)
    case Some(v) => Some(if sign.0 then -(v as int) else v)
    case None => None
  }

  /** Whether `t` starts with `-`, and what follows its sign (`-`, `+` or none). */
  function SplitSign(t: string): (bool, string) {
    if t != [] && t[0] == '-' then (true, t[1..])
    else if t != [] && t[0] == '+' then (false, t[1..])
    else (false, t)
  }

  /** What follows the sign: for base 16 the optional prefix, then the digits. */
  function ParseUnsigned(u: string, base: Base): Option<nat> {
    var digits := DigitsPart(u, base);
    if WellFormedDigits(digits, base) then Some(DigitsValue(digits, base)) else None
  }

  /** What follows the `0x`/`0X` prefix and its optional underscore in base 16; all of `u` otherwise. */
  function DigitsPart(u: string, base: Base): string {
    if base == 16 && HasHexPrefix(u) then
      (if |u| > 2 && u[2] == '_' then u[3..] else u[2..])
    else u
  }

  /** The lower-case digit for a value below 16. */
  function DigitChar(d: nat): (c: char)
    requires d < 16
    ensures IsDigit(c, 16) && DigitValue(c) == d
    ensures d < 10 ==> IsDigit(c, 10)
  {
    "0123456789abcdef"[d]
  }

  /** The digits of `n` in `base`, most significant first, without leading zeros. */
  function Digits(n: nat, base: Base): (s: string)
    ensures s != [] && forall i :: 0 <= i < |s| ==> IsDigit(s[i], base)
  {
    if n < base then [DigitChar(n)]
    else
      var q := Quotient(n, base);
      Digits(q, base) + [DigitChar(n - Shift(q, base))]
  }

  /** `n // base`, written per base so that the arithmetic stays linear. */
  function Quotient(n: nat, base: Base): (q: nat)
    ensures Shift(q, base) <= n < Shift(q, base) + base
    ensures n >= base ==> q < n
  {
    if base == 10 then n / 10 else n / 16
  }

  /** `hex(n)`: `0x` and lower-case digits, with a leading `-` for negatives. */
  function PyHex(n: int): string {
    if n < 0 then "-0x" + Digits(-n, 16) else "0x" + Digits(n, 16)
  }

  /** `str(n)` for an integer. */
  function PyStr(n: int): string {
    if n < 0 then "-" + Digits(-n, 10) else Digits(n, 10)
  }

  /** The rendered digits are well formed and spell `n` back. */
  lemma {:induction false} DigitsRoundTrip(n: nat, base: Base)
    ensures WellFormedDigits(Digits(n, base), base)
    ensures DigitsValue(Digits(n, base), base) == n
  {
    var s := Digits(n, base);
    if n >= base {
      DigitsRoundTrip(Quotient(n, base), base);
      assert s[..|s| - 1] == Digits(Quotient(n, base), base);
    }
  }

  /** `int` reads a literal whose two ends are not whitespace as it stands. */
  lemma ParseIntOfTrimmed(s: string, base: Base)
    requires s != [] && !IsIntSpace(s[0]) && !IsIntSpace(s[|s| - 1])
    ensures ParseInt(s, base) == ParseSigned(s, base)
  {
    assert TrimStart(s, IsIntSpace) == s;
    assert TrimEnd(s, IsIntSpace) == s;
  }

  /** The unsigned part of `hex(m)` reads back as `m`. */
  lemma HexMagnitudeRoundTrip(m: nat)
    ensures ParseUnsigned("0x" + Digits(m, 16), 16) == Some(m)
  {
    var d := Digits(m, 16);
    var unsigned := "0x" + d;
    DigitsRoundTrip(m, 16);
    assert HasHexPrefix(unsigned) && unsigned[2..] == d;
    assert IsDigit(d[0], 16);
    assert unsigned[2] == d[0];
  }

  /** `int(hex(n), 16) == n` for every integer. */
  lemma HexRoundTrip(n: int)
    ensures ParseInt(PyHex(n), 16) == Some(n)
  {
    var s := PyHex(n);
    assert s != [] && !IsIntSpace(s[0]) && !IsIntSpace(s[|s| - 1]) by {
      var d := Digits(if n < 0 then -n else n, 16);
      assert s[|s| - 1] == d[|d| - 1] && IsDigit(d[|d| - 1], 16);
    }
    ParseIntOfTrimmed(s, 16);
    HexSignedRoundTrip(n);
  }

  /** The sign of `hex(n)` is read back too. */
  lemma HexSignedRoundTrip(n: int)
    ensures ParseSigned(PyHex(n), 16) == Some(n)
  {
    var m := if n < 0 then -n else n;
    HexMagnitudeRoundTrip(m);
    HexSign(n);
    SignedFromParts(PyHex(n), 16, n < 0, "0x" + Digits(m, 16), m);
  }

  /** `hex(n)` is a `-` for negatives, then `0x` and the digits of the magnitude. */
  lemma HexSign(n: int)
    ensures SplitSign(PyHex(n)) == (n < 0, "0x" + Digits(if n < 0 then -n else n, 16))
  {
    if n < 0 {
      assert PyHex(n)[1..] == "0x" + Digits(-n, 16);
    }
  }

  /** A signed literal reads as its unsigned part with the sign applied. */
  lemma SignedFromParts(t: string, base: Base, negative: bool, u: string, m: nat)
    requires SplitSign(t) == (negative, u) && ParseUnsigned(u, base) == Some(m)
    ensures ParseSigned(t, base) == Some(if negative then -(m as int) else m as int)
  {
  }

  /** `int(str(n)) == n` for every integer. */
  lemma DecimalRoundTrip(n: int)
    ensures ParseInt(PyStr(n), 10) == Some(n)
  {
    var s := PyStr(n);
    assert s != [] && !IsIntSpace(s[0]) && !IsIntSpace(s[|s| - 1]) by {
      var d := Digits(if n < 0 then -n else n, 10);
      assert s[|s| - 1] == d[|d| - 1] && IsDigit(d[|d| - 1], 10);
      assert s[0] == '-' || (s[0] == d[0] && IsDigit(d[0], 10));
    }
    ParseIntOfTrimmed(s, 10);
    DecimalSignedRoundTrip(n);
  }

  /** The sign of `str(n)` is read back along with its digits. */
  lemma DecimalSignedRoundTrip(n: int)
    ensures ParseSigned(PyStr(n), 10) == Some(n)
  {
    var m := if n < 0 then -n else n;
    var d := Digits(m, 10);
    assert ParseUnsigned(d, 10) == Some(m) by {
      DigitsRoundTrip(m, 10);
    }
    DecimalSign(n);
    SignedFromParts(PyStr(n), 10, n < 0, d, m);
  }

  /** `str(n)` is a `-` for negatives, then the digits of the magnitude. */
  lemma DecimalSign(n: int)
    ensures SplitSign(PyStr(n)) == (n < 0, Digits(if n < 0 then -n else n, 10))
  {
    var d := Digits(if n < 0 then -n else n, 10);
    if n < 0 {
      assert PyStr(n)[1..] == d;
    } else {
      assert IsDigit(d[0], 10);
    }
  }
}
