/**
 * formatNumber of the user interface, on an amount held as a whole number of
 * cents: the sign of the kind, a space, the integer part with at most one
 * comma before its last three digits, a point and two decimals.
 */
module Formatting {
  import opened BudgetController

  datatype Option<T> = None | Some(value: T)

  predicate IsDigit(c: char) {
    '0' <= c <= '9'
  }

  predicate AllDigits(s: string) {
    forall i :: 0 <= i < |s| ==> IsDigit(s[i])
  }

  function Digit(d: nat): (c: char)
    requires d < 10
    ensures IsDigit(c)
  {
    ['0', '1', '2', '3', '4', '5', '6', '7', '8', '9'][d]
  }

  function DigitValue(c: char): nat
    requires IsDigit(c)
  {
    (c as int - '0' as int) as nat
  }

  /** Decimal notation of `n` without leading zeros ("0" for zero). */
  function DecimalString(n: nat): string {
    if n < 10 then [Digit(n)] else DecimalString(n / 10) + [Digit(n % 10)]
  }

  /** The number a string of decimal digits denotes. */
  function DigitsValue(s: string): nat
    requires AllDigits(s)
  {
    if |s| == 0 then 0 else DigitsValue(s[..|s| - 1]) * 10 + DigitValue(s[|s| - 1])
  }

  /** The two decimals of `toFixed(2)` for a whole number of cents below 100. */
  function TwoDigits(n: nat): string
    requires n < 100
  {
    [Digit(n / 10), Digit(n % 10)]
  }

  /** At most one comma, put before the last three characters of a longer string. */
  function InsertComma(s: string): (r: string)
    ensures |s| <= 3 ==> r == s
    ensures |s| > 3 ==>
              && |r| == |s| + 1 && r[|r| - 4] == ','
              && r[..|r| - 4] == s[..|s| - 3] && r[|r| - 3..] == s[|s| - 3..]
  {
    if |s| > 3 then s[..|s| - 3] + "," + s[|s| - 3..] else s
  }

  function Sign(kind: Kind): string {
    if kind == Exp then "-" else "+"
  }

  function Abs(x: int): nat {
    if x < 0 then -x else x
  }

  /**
   * The text shown for `cents` on a line of kind `kind`: "- " or "+ ", the
   * whole units (commas aside), a point, and the cents as two digits.
   */
  function FormatNumber(cents: int, kind: Kind): (r: string)
    ensures |r| >= 6 && r[0] == (if kind == Exp then '-' else '+') && r[1] == ' ' && r[|r| - 3] == '.'
    ensures var units := RemoveCommas(r[2..|r| - 3]);
            AllDigits(units) && DigitsValue(units) == Abs(cents) / 100
    ensures AllDigits(r[|r| - 2..]) && DigitsValue(r[|r| - 2..]) == Abs(cents) % 100
  {
    var a := Abs(cents);
    var d, dec := DecimalString(a / 100), TwoDigits(a % 100);
    DecimalStringDigits(a / 100);
    TwoDigitsValue(a % 100);
    LayoutReadsBack(kind, d, dec);
    Layout(kind, d, dec)
  }

  /**
   * Reads a formatted amount back, as the partner of FormatNumber: the sign,
   * a space, digits with commas ignored, a point and two decimals.
   */
  function ParseAmount(s: string): Option<(Kind, nat)> {
    if |s| < 6 || s[1] != ' ' || s[|s| - 3] != '.' || !(s[0] == '-' || s[0] == '+') then None
    else
      var kind := if s[0] == '-' then Exp else Inc;
      var intPart := RemoveCommas(s[2..|s| - 3]);
      var decPart := s[|s| - 2..];
      if !AllDigits(intPart) || !AllDigits(decPart) then None
      else Some((kind, DigitsValue(intPart) * 100 + DigitsValue(decPart)))
  }

  function RemoveCommas(s: string): (r: string)
    ensures ',' !in r
  {
    if |s| == 0 then ""
    else (if s[0] == ',' then "" else [s[0]]) + RemoveCommas(s[1..])
  }

  // ---------------------------------------------------------------------------
  // Lemmas

  lemma {:induction false} DecimalStringDigits(n: nat)
    ensures |DecimalString(n)| > 0 && AllDigits(DecimalString(n))
    ensures DigitsValue(DecimalString(n)) == n
    ensures n >= 10 <==> |DecimalString(n)| > 1
    ensures n >= 100 <==> |DecimalString(n)| > 2
    ensures n >= 1000 <==> |DecimalString(n)| > 3
  {
    var s := DecimalString(n);
    if n >= 10 {
      DecimalStringDigits(n / 10);
      assert s[..|s| - 1] == DecimalString(n / 10);
      assert DigitValue(Digit(n % 10)) == n % 10 by { DigitValueOfDigit(n % 10); }
    } else {
      DigitValueOfDigit(n);
    }
  }

  lemma DigitValueOfDigit(d: nat)
    requires d < 10
    ensures DigitValue(Digit(d)) == d
  {
  }

  lemma {:induction false} RemoveCommasAppend(a: string, b: string)
    ensures RemoveCommas(a + b) == RemoveCommas(a) + RemoveCommas(b)
  {
    if |a| > 0 {
      assert (a + b)[0] == a[0];
      assert (a + b)[1..] == a[1..] + b;
      RemoveCommasAppend(a[1..], b);
    } else {
      assert a + b == b;
    }
  }

  lemma {:induction false} RemoveCommasOfDigits(s: string)
    requires AllDigits(s)
    ensures RemoveCommas(s) == s
  {
    if |s| > 0 {
      RemoveCommasOfDigits(s[1..]);
    }
  }

  /** Dropping the comma from a grouped string of digits gives the digits back. */
  lemma UngroupInsertComma(s: string)
    requires AllDigits(s)
    ensures RemoveCommas(InsertComma(s)) == s
  {
    if |s| > 3 {
      var hi, lo := s[..|s| - 3], s[|s| - 3..];
      RemoveCommasAppend(hi + ",", lo);
      RemoveCommasAppend(hi, ",");
      RemoveCommasOfDigits(hi);
      RemoveCommasOfDigits(lo);
      assert RemoveCommas(",") == "";
      assert hi + lo == s;
    } else {
      RemoveCommasOfDigits(s);
    }
  }

  /** A formatted amount laid out from its sign, integer digits and decimals. */
  function Layout(kind: Kind, intDigits: string, decimals: string): string {
    (Sign(kind) + " ") + InsertComma(intDigits) + ("." + decimals)
  }

  /** Unfolds FormatNumber into its Layout, for the lemmas that reason about Layout. */
  lemma FormatNumberLayout(cents: int, kind: Kind)
    ensures FormatNumber(cents, kind) == Layout(kind, DecimalString(Abs(cents) / 100), TwoDigits(Abs(cents) % 100))
  {
  }

  lemma NoCommaInDigits(s: string)
    requires AllDigits(s)
    ensures ',' !in s
  {
  }

  lemma InsertCommaCount(d: string)
    requires ',' !in d
    ensures multiset(InsertComma(d))[','] == if |d| > 3 then 1 else 0
  {
    if |d| > 3 {
      var hi, lo := d[..|d| - 3], d[|d| - 3..];
      assert ',' !in hi && ',' !in lo by { assert hi + lo == d; }
      assert InsertComma(d) == hi + [','] + lo;
      assert multiset(hi)[','] == 0 && multiset(lo)[','] == 0;
    } else {
      assert multiset(d)[','] == 0;
    }
  }

  lemma LayoutCommas(kind: Kind, d: string, dec: string)
    requires ',' !in d && ',' !in dec
    ensures multiset(Layout(kind, d, dec))[','] == if |d| > 3 then 1 else 0
  {
    var head, grouped, tail := Sign(kind) + " ", InsertComma(d), "." + dec;
    assert ',' !in head && ',' !in tail;
    InsertCommaCount(d);
    CountInMiddle(head, grouped, tail, ',');
  }

  /** A character absent from both ends occurs in `a + b + c` as often as in `b`. */
  lemma CountInMiddle(a: string, b: string, c: string, ch: char)
    requires ch !in a && ch !in c
    ensures multiset(a + b + c)[ch] == multiset(b)[ch]
  {
    assert multiset(a + b + c) == multiset(a) + multiset(b) + multiset(c);
    assert multiset(a)[ch] == 0 && multiset(c)[ch] == 0;
  }

  /** Where the sign, the separators and the two fields sit in a laid-out amount. */
  lemma LayoutFields(kind: Kind, d: string, dec: string)
    requires |d| > 0 && |dec| == 2
    ensures var s := Layout(kind, d, dec);
            && |s| >= 6 && s[1] == ' ' && s[|s| - 3] == '.'
            && s[0] == (if kind == Exp then '-' else '+')
            && s[2..|s| - 3] == InsertComma(d) && s[|s| - 2..] == dec
  {
    var s := Layout(kind, d, dec);
    var head, grouped, tail := Sign(kind) + " ", InsertComma(d), "." + dec;
    assert s == head + grouped + tail;
    assert |grouped| >= |d|;
  }

  /** Each field of a laid-out amount reads back as what was laid out. */
  lemma LayoutReadsBack(kind: Kind, d: string, dec: string)
    requires |d| > 0 && AllDigits(d) && |dec| == 2
    ensures var s := Layout(kind, d, dec);
            && |s| >= 6 && s[0] == (if kind == Exp then '-' else '+') && s[1] == ' ' && s[|s| - 3] == '.'
            && RemoveCommas(s[2..|s| - 3]) == d && s[|s| - 2..] == dec
  {
    LayoutFields(kind, d, dec);
    UngroupInsertComma(d);
  }

  /** ParseAmount, once the sign, the separators and the two fields are known. */
  lemma ParseFields(s: string, kind: Kind, d: string, dec: string)
    requires |s| >= 6 && s[1] == ' ' && s[|s| - 3] == '.'
    requires s[0] == (if kind == Exp then '-' else '+')
    requires AllDigits(d) && AllDigits(dec)
    requires RemoveCommas(s[2..|s| - 3]) == d && s[|s| - 2..] == dec
    ensures ParseAmount(s) == Some((kind, DigitsValue(d) * 100 + DigitsValue(dec)))
  {
  }

  /**
   * The integer part gets exactly one comma when it has more than three
   * digits (from 1,000.00 on) and none otherwise; it is never grouped further.
   */
  lemma FormatNumberCommas(cents: int, kind: Kind)
    ensures multiset(FormatNumber(cents, kind))[','] == if Abs(cents) >= 100000 then 1 else 0
  {
    var a := Abs(cents);
    DecimalStringDigits(a / 100);
    FormatNumberLayout(cents, kind);
    NoCommaInDigits(DecimalString(a / 100));
    NoCommaInDigits(TwoDigits(a % 100));
    LayoutCommas(kind, DecimalString(a / 100), TwoDigits(a % 100));
  }

  lemma TwoDigitsValue(n: nat)
    requires n < 100
    ensures |TwoDigits(n)| == 2 && AllDigits(TwoDigits(n))
    ensures DigitsValue(TwoDigits(n)) == n
  {
    var s := TwoDigits(n);
    DigitValueOfDigit(n / 10);
    DigitValueOfDigit(n % 10);
    assert s[..1] == [s[0]];
    assert [s[0]][..0] == [];
    assert DigitsValue(s[..1]) == n / 10;
  }

  /** Reading the text back yields the kind and the absolute amount in cents. */
  lemma FormatNumberRoundTrip(cents: int, kind: Kind)
    ensures ParseAmount(FormatNumber(cents, kind)) == Some((kind, Abs(cents)))
  {
    var s := FormatNumber(cents, kind);
    ParseFields(s, kind, RemoveCommas(s[2..|s| - 3]), s[|s| - 2..]);
  }
}
