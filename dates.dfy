/**
 * The birthday strings of the form: a picked calendar date written as
 * `YYYY-MM-DD` from its local fields, and a text value cut at its first `T`
 * (src/pages/Form.js, `handleChange`, lines 176-186).
 */
module Dates {
  import opened Wrappers

  /** A month as `getMonth() + 1` gives it. */
  type Month = m: nat | 1 <= m <= 12 witness 1

  /** A day of the month as `getDate()` gives it. */
  type Day = d: nat | 1 <= d <= 31 witness 1

  /** The local calendar fields of a valid `Date` object. */
  datatype CalendarDate = CalendarDate(year: int, month: Month, day: Day)

  predicate IsDigit(c: char) {
    '0' <= c <= '9'
  }

  predicate AllDigits(s: string) {
    forall i :: 0 <= i < |s| ==> IsDigit(s[i])
  }

  function DigitChar(n: nat): (c: char)
    requires n < 10
    ensures IsDigit(c)
  {
    ('0' as int + n) as char
  }

  function DigitValue(c: char): (n: nat)
    requires IsDigit(c)
    ensures n < 10 && DigitChar(n) == c
  {
    c as int - '0' as int
  }

  /** `n.toString()`: the decimal numeral of `n`, with no leading zero. */
  function NatToString(n: nat): (r: string)
    ensures AllDigits(r)
    ensures |r| == 1 <==> n < 10
    ensures |r| >= 1 && (r[0] == '0' <==> n == 0)
    decreases n
  {
    if n < 10 then [DigitChar(n)] else NatToString(n / 10) + [DigitChar(n % 10)]
  }

  /** The value of a decimal numeral, most significant digit first. */
  function ParseNat(s: string): nat
    requires AllDigits(s)
  {
    if s == [] then 0 else 10 * ParseNat(s[..|s| - 1]) + DigitValue(s[|s| - 1])
  }

  /** Reading back the numeral of `n` gives `n`. */
  lemma {:induction false} ParseNatToString(n: nat)
    ensures ParseNat(NatToString(n)) == n
    decreases n
  {
    if n >= 10 {
      var r := NatToString(n);
      assert r[..|r| - 1] == NatToString(n / 10);
      ParseNatToString(n / 10);
    }
  }

  /** `${y}` for a year: a minus sign for a negative year, and never any padding. */
  function IntToString(y: int): string {
    if y < 0 then "-" + NatToString(-y) else NatToString(y)
  }

  /** A numeral as `IntToString` writes it: digits, or a minus sign and digits. */
  predicate IsIntNumeral(s: string) {
    (|s| >= 1 && AllDigits(s)) || (|s| >= 2 && s[0] == '-' && AllDigits(s[1..]))
  }

  function ParseInt(s: string): int
    requires IsIntNumeral(s)
  {
    if s[0] == '-' then 0 - ParseNat(s[1..]) else ParseNat(s)
  }

  /** Reading back the numeral of a year gives the year. */
  lemma ParseIntToString(y: int)
    ensures IsIntNumeral(IntToString(y)) && ParseInt(IntToString(y)) == y
  {
    var r := IntToString(y);
    if y < 0 {
      var digits := NatToString(-y);
      assert r == "-" + digits && r[1..] == digits;
      ParseNatToString(-y);
      assert ParseInt(r) == 0 - ParseNat(digits);
    } else {
      assert r == NatToString(y) && r[0] != '-';
      ParseNatToString(y);
    }
  }

  /** `n.toString().padStart(2, "0")`. */
  function Pad2(n: nat): (r: string)
    ensures AllDigits(r)
    ensures n < 100 ==> |r| == 2
  {
    var s := NatToString(n);
    if |s| < 2 then "0" + s else s
  }

  /** A two-digit field reads back as the number it was written from. */
  lemma ParsePad2(n: nat)
    requires n < 100
    ensures ParseNat(Pad2(n)) == n
  {
    var r := Pad2(n);
    if n < 10 {
      assert r == ['0', DigitChar(n)];
      assert r[..1] == ['0'] && r[..1][..0] == [];
      assert ParseNat(['0']) == 0;
      assert DigitValue(DigitChar(n)) == n;
    } else {
      ParseNatToString(n);
    }
  }

  /**
   * The birthday string built from a picked date (lines 180-183): the year as
   * is, then month and day padded to two digits, joined by `-`.
   */
  function FormatDate(d: CalendarDate): string {
    IntToString(d.year) + "-" + Pad2(d.month) + "-" + Pad2(d.day)
  }

  /**
   * Reads a `YYYY-MM-DD` string from its end: two-digit day, two-digit month,
   * and whatever numeral precedes them as the year. The inverse of FormatDate.
   */
  function ParseDate(s: string): Option<CalendarDate> {
    if |s| < 7 then None
    else
      var n := |s|;
      var year, month, day := s[..n - 6], s[n - 5..n - 3], s[n - 2..];
      if s[n - 6] == '-' && s[n - 3] == '-' && IsIntNumeral(year)
         && AllDigits(month) && AllDigits(day)
         && 1 <= ParseNat(month) <= 12 && 1 <= ParseNat(day) <= 31
      then Some(CalendarDate(ParseInt(year), ParseNat(month), ParseNat(day)))
      else None
  }

  /** The shape of a formatted date: an unpadded year, then `-MM-DD` with exactly two digits each. */
  lemma FormatDateShape(d: CalendarDate)
    ensures var r := FormatDate(d);
      && |r| == |IntToString(d.year)| + 6
      && r[..|r| - 6] == IntToString(d.year)
      && r[|r| - 6] == '-' && r[|r| - 3] == '-'
      && AllDigits(r[|r| - 5..|r| - 3]) && AllDigits(r[|r| - 2..])
  {
  }

  /** Formatting a picked date loses nothing: year, month and day read back unchanged. */
  lemma FormatDateRoundTrip(d: CalendarDate)
    ensures ParseDate(FormatDate(d)) == Some(d)
  {
    var y, mm, dd := IntToString(d.year), Pad2(d.month), Pad2(d.day);
    var r := FormatDate(d);
    var n := |r|;
    assert r == y + ['-'] + mm + ['-'] + dd;
    assert r[..n - 6] == y;
    assert r[n - 5..n - 3] == mm;
    assert r[n - 2..] == dd;
    ParseIntToString(d.year);
    ParsePad2(d.month);
    ParsePad2(d.day);
  }

  /** A formatted date has no `T`, so cutting it at its first `T` leaves it whole. */
  lemma FormatDateHasNoT(d: CalendarDate)
    ensures 'T' !in FormatDate(d)
  {
  }

  /** The year is not padded to four digits: year 999 gives a nine-character string. */
  lemma ShortYearNotPadded()
    ensures FormatDate(CalendarDate(999, 5, 1)) == "999-05-01"
  {
  }

  /**
   * `s.split("T")[0]` (line 186): the part of `s` before its first `T`, all of
   * `s` when it has none.
   */
  function CutAtT(s: string): (r: string)
    ensures r <= s
    ensures 'T' !in r
    ensures |r| < |s| ==> s[|r|] == 'T'
  {
    if s == [] || s[0] == 'T' then [] else [s[0]] + CutAtT(s[1..])
  }

  /** A string without `T` is left whole by the cut. */
  lemma CutAtTWithoutT(s: string)
    requires 'T' !in s
    ensures CutAtT(s) == s
  {
  }

  /** Cutting twice is cutting once. */
  lemma CutAtTIdempotent(s: string)
    ensures CutAtT(CutAtT(s)) == CutAtT(s)
  {
  }

  /**
   * The cut is the only prefix that has no `T` and ends at the end of `s` or
   * just before a `T`: an independent description of `split("T")[0]`.
   */
  lemma CutAtTUnique(s: string, p: string)
    requires p <= s && 'T' !in p
    requires |p| == |s| || s[|p|] == 'T'
    ensures p == CutAtT(s)
  {
  }

  /** An ISO timestamp is cut to its date part. */
  lemma CutIsoTimestamp()
    ensures CutAtT("2024-05-01T10:00:00Z") == "2024-05-01"
  {
    var s, p := "2024-05-01T10:00:00Z", "2024-05-01";
    assert s == p + "T10:00:00Z";
    CutAtTUnique(s, p);
  }
}
