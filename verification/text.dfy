/** Character and string helpers shared by the models: decimal and hexadecimal digits,
    PHP's integer-to-string conversion, `implode` and ASCII `strtoupper`. */
module Text {

  predicate IsDigit(c: char) { '0' <= c <= '9' }

  predicate AllDigits(s: string) { forall i :: 0 <= i < |s| ==> IsDigit(s[i]) }

  function DigitValue(c: char): (d: int)
    requires IsDigit(c)
    ensures 0 <= d <= 9
  {
    c as int - '0' as int
  }

  function DigitChar(d: int): (c: char)
    requires 0 <= d <= 9
    ensures IsDigit(c) && DigitValue(c) == d
  {
    ('0' as int + d) as char
  }

  lemma DigitRoundTrip(c: char)
    requires IsDigit(c)
    ensures DigitChar(DigitValue(c)) == c
  {
  }

  /** The number a string of decimal digits denotes (leading zeros allowed). */
  function DigitsValue(s: string): nat
    requires AllDigits(s)
  {
    if s == [] then 0 else 10 * DigitsValue(s[..|s| - 1]) + DigitValue(s[|s| - 1])
  }

  /** PHP's string form of a non-negative integer: decimal, no leading zeros. */
  function NatToString(n: nat): (s: string)
    ensures s != [] && AllDigits(s)
  {
    if n < 10 then [DigitChar(n)] else NatToString(n / 10) + [DigitChar(n % 10)]
  }

  /** PHP's string form of any integer. */
  function IntToString(i: int): string {
    if i < 0 then "-" + NatToString(-i) else NatToString(i)
  }

  lemma {:induction false} NatToStringRoundTrip(n: nat)
    ensures DigitsValue(NatToString(n)) == n
  {
    if n >= 10 {
      var s := NatToString(n);
      assert s[..|s| - 1] == NatToString(n / 10);
      NatToStringRoundTrip(n / 10);
    }
  }

  lemma NatToStringInjective(m: nat, n: nat)
    requires NatToString(m) == NatToString(n)
    ensures m == n
  {
    NatToStringRoundTrip(m);
    NatToStringRoundTrip(n);
  }

  /** Index of the first character that is not a decimal digit (|s| when there is none). */
  function DigitRun(s: string): (n: nat)
    ensures n <= |s|
  {
    if s == [] || !IsDigit(s[0]) then 0 else 1 + DigitRun(s[1..])
  }

  lemma {:induction false} DigitRunOfSeparated(x: string, c: char, y: string)
    requires AllDigits(x) && !IsDigit(c)
    ensures DigitRun(x + [c] + y) == |x|
  {
    if x != [] {
      assert (x + [c] + y)[1..] == x[1..] + [c] + y;
      DigitRunOfSeparated(x[1..], c, y);
    }
  }

  /** A run of digits followed by a non-digit separator can be split back unambiguously. */
  lemma SplitAtSeparator(x: string, y: string, x': string, y': string, c: char)
    requires AllDigits(x) && AllDigits(x') && !IsDigit(c)
    requires x + [c] + y == x' + [c] + y'
    ensures x == x' && y == y'
  {
    DigitRunOfSeparated(x, c, y);
    DigitRunOfSeparated(x', c, y');
    var s := x + [c] + y;
    assert x == s[..|x|] && y == s[|x| + 1..];
    assert x' == s[..|x'|] && y' == s[|x'| + 1..];
  }

  /** Fixed-width zero-padded decimal text, as `%02d` / `%04d` print it. */
  function Pad2(n: int): (s: string)
    requires 0 <= n <= 99
    ensures |s| == 2 && AllDigits(s)
  {
    [DigitChar(n / 10), DigitChar(n % 10)]
  }

  function Pad4(n: int): (s: string)
    requires 0 <= n <= 9999
    ensures |s| == 4 && AllDigits(s)
  {
    Pad2(n / 100) + Pad2(n % 100)
  }

  lemma Pad2RoundTrip(n: int)
    requires 0 <= n <= 99
    ensures DigitsValue(Pad2(n)) == n
  {
    var s := Pad2(n);
    assert s[..1][..0] == [];
    assert DigitsValue(s[..1]) == n / 10;
    assert DigitsValue(s) == 10 * (n / 10) + n % 10;
  }

  /** Two more digits after a digit string: the value grows by a factor of 100. */
  lemma DigitsValueAppend2(s: string, t: string)
    requires AllDigits(s) && AllDigits(t) && |t| == 2
    ensures DigitsValue(s + t) == 100 * DigitsValue(s) + DigitsValue(t)
  {
    var u, v := s + t, s + [t[0]];
    assert u[..|u| - 1] == v && u[|u| - 1] == t[1];
    assert DigitsValue(u) == 10 * DigitsValue(v) + DigitValue(t[1]);
    assert v[..|v| - 1] == s && v[|v| - 1] == t[0];
    assert DigitsValue(v) == 10 * DigitsValue(s) + DigitValue(t[0]);
    assert t[..|t| - 1] == [t[0]] && [t[0]][..0] == [];
    assert DigitsValue([t[0]]) == DigitValue(t[0]);
    assert DigitsValue(t) == 10 * DigitValue(t[0]) + DigitValue(t[1]);
  }

  lemma Pad4RoundTrip(n: int)
    requires 0 <= n <= 9999
    ensures DigitsValue(Pad4(n)) == n
  {
    Pad2RoundTrip(n / 100);
    Pad2RoundTrip(n % 100);
    DigitsValueAppend2(Pad2(n / 100), Pad2(n % 100));
  }

  /** Printing the value of two digits with `%02d` gives back those digits. */
  lemma Pad2Digits(a: char, b: char)
    requires IsDigit(a) && IsDigit(b)
    ensures Pad2(10 * DigitValue(a) + DigitValue(b)) == [a, b]
  {
    var va, vb := DigitValue(a), DigitValue(b);
    var m := 10 * va + vb;
    assert m / 10 == va && m % 10 == vb;
    DigitRoundTrip(a);
    DigitRoundTrip(b);
  }

  /** `implode(sep, parts)`. */
  function Join(parts: seq<string>, sep: string): string {
    if parts == [] then ""
    else if |parts| == 1 then parts[0]
    else parts[0] + sep + Join(parts[1..], sep)
  }

  /** `strtoupper` on one character: ASCII letters only. */
  function UpperChar(c: char): char {
    if 'a' <= c <= 'z' then (c as int - 32) as char else c
  }

  function Upper(s: string): (r: string)
    ensures |r| == |s| && forall i :: 0 <= i < |s| ==> r[i] == UpperChar(s[i])
  {
    seq(|s|, i requires 0 <= i < |s| => UpperChar(s[i]))
  }

  /** PHP's `empty()` on a string: true for "" and for "0". */
  predicate IsEmptyString(s: string) { s == "" || s == "0" }

  predicate IsHexDigit(c: char) {
    IsDigit(c) || 'a' <= c <= 'f' || 'A' <= c <= 'F'
  }

  function HexValue(c: char): (v: int)
    requires IsHexDigit(c)
    ensures 0 <= v <= 15
  {
    if IsDigit(c) then DigitValue(c)
    else if 'a' <= c <= 'f' then c as int - 'a' as int + 10
    else c as int - 'A' as int + 10
  }

  /** The upper-case hexadecimal digit of a value 0..15. */
  function HexChar(v: int): (c: char)
    requires 0 <= v <= 15
    ensures IsHexDigit(c) && HexValue(c) == v
  {
    if v < 10 then DigitChar(v) else ('A' as int + v - 10) as char
  }
}
