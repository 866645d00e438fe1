/**
 * Remote identifiers. A standalone device numbers its ports and filters with
 * integers, a clustered device names them with UUID strings; the driver
 * turns either into a string before each port or filter lookup, modification
 * and deletion.
 */
module Idents {

  datatype Ident = Num(n: int) | Uuid(u: string)

  /** Python truthiness of an identifier: `0` and `""` are false. */
  predicate Falsy(i: Ident) {
    i == Num(0) || i == Uuid("")
  }

  predicate IsDigit(c: char) {
    '0' <= c <= '9'
  }

  predicate AllDigits(s: string) {
    forall k :: 0 <= k < |s| ==> IsDigit(s[k])
  }

  function DigitChar(d: nat): (c: char)
    requires d < 10
    ensures IsDigit(c)
  {
    ['0','1','2','3','4','5','6','7','8','9'][d]
  }

  function DigitValue(c: char): (d: nat)
    requires IsDigit(c)
    ensures d < 10
  {
    (c as int - '0' as int) as nat
  }

  /** Decimal rendering of a natural number, as Python's `str` writes it. */
  function Decimal(n: nat): string
  {
    if n < 10 then [DigitChar(n)] else Decimal(n / 10) + [DigitChar(n % 10)]
  }

  /** Reads back a string of decimal digits. */
  function ParseDecimal(s: string): nat
    requires AllDigits(s)
  {
    if |s| == 0 then 0 else 10 * ParseDecimal(s[..|s| - 1]) + DigitValue(s[|s| - 1])
  }

  /** `str(identifier)`: what goes on the wire in place of an identifier. */
  function Normalize(i: Ident): string
  {
    match i
    case Num(n) => if n < 0 then "-" + Decimal(-n) else Decimal(n)
    case Uuid(u) => u
  }

  lemma DigitRoundTrip(d: nat)
    requires d < 10
    ensures DigitValue(DigitChar(d)) == d
  {
  }

  /** The decimal rendering is a non-empty digit string that reads back as the number. */
  lemma {:induction false} DecimalRoundTrip(n: nat)
    ensures AllDigits(Decimal(n)) && |Decimal(n)| > 0
    ensures ParseDecimal(Decimal(n)) == n
  {
    if n < 10 {
      DigitRoundTrip(n);
    } else {
      DecimalRoundTrip(n / 10);
      var s := Decimal(n);
      assert s[..|s| - 1] == Decimal(n / 10);
      DigitRoundTrip(n % 10);
    }
  }

  /**
   * For identifiers of one kind the normalisation loses nothing: two integer
   * identifiers with the same string are the same identifier, and so are
   * two UUIDs. A device keyed by identifier therefore sees exactly the
   * requests a device keyed by the wire string sees.
   */
  lemma NormalizeInjective(a: Ident, b: Ident)
    requires a.Num? == b.Num?
    requires Normalize(a) == Normalize(b)
    ensures a == b
  {
    if a.Num? {
      NumNormalizeInjective(a.n, b.n);
    }
  }

  lemma NumNormalizeInjective(x: int, y: int)
    requires Normalize(Num(x)) == Normalize(Num(y))
    ensures x == y
  {
    NumRoundTrip(x);
    NumRoundTrip(y);
  }

  /** The text of an integer: an optional minus sign, then digits. */
  predicate IntText(s: string) {
    if |s| > 0 && s[0] == '-' then AllDigits(s[1..]) else AllDigits(s)
  }

  /** Reads back the string form of an integer identifier. */
  function ParseInt(s: string): int
    requires IntText(s)
  {
    if |s| > 0 && s[0] == '-' then -(ParseDecimal(s[1..]) as int) else ParseDecimal(s)
  }

  /** The string form of an integer identifier reads back as the integer. */
  lemma NumRoundTrip(x: int)
    ensures IntText(Normalize(Num(x))) && ParseInt(Normalize(Num(x))) == x
  {
    var sx := Normalize(Num(x));
    if x < 0 {
      var d := Decimal(-x);
      DecimalRoundTrip(-x);
      assert sx == "-" + d;
      assert sx[1..] == d;
    } else {
      DecimalRoundTrip(x);
      assert sx == Decimal(x);
      assert IsDigit(sx[0]);
    }
  }
}
