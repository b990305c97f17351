/**
 * The timestamp formatter of src/utils/functions/currentDateTime.ts.
 * The clock is not read here: the local date components that a JavaScript
 * `Date` would report are an input.
 */
module DateTime {

  /** The components of a local date, as the getters of `Date` return them. */
  datatype LocalDate = LocalDate(
    date: nat,          // getDate(): day of the month
    month: nat,         // getMonth(): zero-based month
    fullYear: int,      // getFullYear(): may be negative
    hours: nat,
    minutes: nat,
    seconds: nat,
    milliseconds: nat)

  /** The ranges a real `Date` keeps its components in. */
  predicate InRange(d: LocalDate) {
    1 <= d.date <= 31 && d.month < 12 && d.hours < 24 && d.minutes < 60
    && d.seconds < 60 && d.milliseconds < 1000
  }

  predicate IsDigit(c: char) { '0' <= c <= '9' }

  predicate AllDigits(s: string) { forall i :: 0 <= i < |s| ==> IsDigit(s[i]) }

  function Digit(d: nat): (c: char)
    requires d < 10
    ensures IsDigit(c) && (c as int) - ('0' as int) == d
  {
    (('0' as int) + d) as char
  }

  /** `String(n)` for a non-negative integer: its decimal digits, no leading zero. */
  function NatToString(n: nat): (s: string)
    ensures 1 <= |s| && AllDigits(s)
    ensures |s| == 1 <==> n < 10
    ensures n >= 10 ==> s[0] != '0'
    decreases n
  {
    if n < 10 then [Digit(n)] else NatToString(n / 10) + [Digit(n % 10)]
  }

  /** `String(n)` for any integer: a minus sign before the digits of a negative one. */
  function IntToString(n: int): (s: string)
    ensures s != [] && (s[0] == '-' <==> n < 0)
    ensures n >= 0 ==> AllDigits(s) && ParseNat(s) == n
    ensures n < 0 ==> AllDigits(s[1..]) && ParseNat(s[1..]) == -n
  {
    if n < 0 then
      var digits := NatToString(-n);
      ParseNatOfNatToString(-n);
      assert ("-" + digits)[1..] == digits;
      "-" + digits
    else
      ParseNatOfNatToString(n);
      NatToString(n)
  }

  /** The value of a string of decimal digits; the inverse of NatToString. */
  function ParseNat(s: string): nat
    requires AllDigits(s)
  {
    if s == [] then 0 else ParseNat(s[..|s| - 1]) * 10 + ((s[|s| - 1] as int) - ('0' as int))
  }

  /** `s.padStart(len, fill)` with a one-character fill string. */
  function PadStart(s: string, len: nat, fill: char): (r: string)
    ensures |r| == if |s| >= len then |s| else len
    ensures r[|r| - |s|..] == s
    ensures forall i :: 0 <= i < |r| - |s| ==> r[i] == fill
  {
    if |s| >= len then s else seq(len - |s|, _ => fill) + s
  }

  /** `s.slice(-2)`: the last two characters, or all of a shorter string. */
  function LastTwo(s: string): (r: string)
    ensures |r| == if |s| < 2 then |s| else 2
    ensures r == s[|s| - |r|..]
  {
    if |s| < 2 then s else s[|s| - 2..]
  }

  /** A component printed as `String(n).padStart(2, '0')`. */
  function TwoDigits(n: nat): string {
    PadStart(NatToString(n), 2, '0')
  }

  /** The sub-second field: `String(Math.floor(ms / 100))`. */
  function Tenths(ms: nat): string {
    NatToString(ms / 100)
  }

  /** The year field: the last two characters of `String(fullYear)`. */
  function YearField(y: int): string {
    LastTwo(IntToString(y))
  }

  /**
   * `currentDateTime()`: `DD/MM/YY HH:MM:SS.M` (the separators of the date
   * are slashes, whatever the comment above the template says).
   */
  function CurrentDateTime(d: LocalDate): (r: string)
    ensures InRange(d) && d.fullYear >= 10 ==>
      && |r| == 19
      && r[2] == '/' && r[5] == '/' && r[8] == ' ' && r[11] == ':' && r[14] == ':' && r[17] == '.'
  {
    var dd, mo, yy := TwoDigits(d.date), TwoDigits(d.month + 1), YearField(d.fullYear);
    var hh, mi, ss, t := TwoDigits(d.hours), TwoDigits(d.minutes), TwoDigits(d.seconds), Tenths(d.milliseconds);
    var r := Layout(dd, mo, yy, hh, mi, ss, t);
    if InRange(d) && d.fullYear >= 10 then
      FieldWidths(d);
      LayoutPositions(dd, mo, yy, hh, mi, ss, t);
      r
    else
      r
  }

  /** In range, every field but the sub-second one is two characters, and that one is one. */
  lemma FieldWidths(d: LocalDate)
    requires InRange(d) && d.fullYear >= 10
    ensures |TwoDigits(d.date)| == 2 && |TwoDigits(d.month + 1)| == 2 && |YearField(d.fullYear)| == 2
    ensures |TwoDigits(d.hours)| == 2 && |TwoDigits(d.minutes)| == 2 && |TwoDigits(d.seconds)| == 2
    ensures |Tenths(d.milliseconds)| == 1
  {
    TwoDigitsRoundTrip(d.date);
    TwoDigitsRoundTrip(d.month + 1);
    TwoDigitsRoundTrip(d.hours);
    TwoDigitsRoundTrip(d.minutes);
    TwoDigitsRoundTrip(d.seconds);
    YearFieldIsYearModHundred(d.fullYear);
    TenthsIsOneDigit(d.milliseconds);
  }

  /** The template literal of `currentDateTime`, over the already formatted fields. */
  function Layout(dd: string, mo: string, yy: string, hh: string, mi: string, ss: string, t: string): string {
    dd + "/" + mo + "/" + yy + " " + hh + ":" + mi + ":" + ss + "." + t
  }

  // ---------------------------------------------------------------------------
  // Properties

  lemma {:induction false} ParseNatOfNatToString(n: nat)
    ensures ParseNat(NatToString(n)) == n
    decreases n
  {
    if n >= 10 {
      var s := NatToString(n);
      assert s[..|s| - 1] == NatToString(n / 10);
      ParseNatOfNatToString(n / 10);
    }
  }

  lemma {:induction false} ParseNatLeadingZeros(z: nat, s: string)
    requires AllDigits(s)
    ensures AllDigits(seq(z, _ => '0') + s)
    ensures ParseNat(seq(z, _ => '0') + s) == ParseNat(s)
    decreases z, |s|
  {
    var t := seq(z, _ => '0') + s;
    assert AllDigits(t);
    if s == [] {
      assert t == seq(z, _ => '0');
      if z > 0 {
        assert t[..|t| - 1] == seq(z - 1, _ => '0') + [];
        ParseNatLeadingZeros(z - 1, []);
      }
    } else {
      assert t[..|t| - 1] == seq(z, _ => '0') + s[..|s| - 1];
      ParseNatLeadingZeros(z, s[..|s| - 1]);
    }
  }

  /** Every padded field is at least two characters and reads back as its value. */
  lemma TwoDigitsRoundTrip(n: nat)
    ensures |TwoDigits(n)| >= 2 && AllDigits(TwoDigits(n))
    ensures n < 100 ==> |TwoDigits(n)| == 2
    ensures ParseNat(TwoDigits(n)) == n
  {
    var s := NatToString(n);
    ParseNatOfNatToString(n);
    if |s| < 2 {
      assert TwoDigits(n) == seq(1, _ => '0') + s;
      ParseNatLeadingZeros(1, s);
    } else if n < 100 {
      assert n >= 10;
      assert s == NatToString(n / 10) + [Digit(n % 10)];
    }
  }

  /** For a four-digit-like year, the field is its last two decimal digits. */
  lemma YearFieldIsYearModHundred(y: int)
    requires y >= 10
    ensures |YearField(y)| == 2 && AllDigits(YearField(y))
    ensures ParseNat(YearField(y)) == y % 100
  {
    var q, r := y / 10, y % 10;
    var hi := NatToString(q);
    assert NatToString(y) == hi + [Digit(r)];
    LastDigit(q);
    var f := YearField(y);
    assert f == [hi[|hi| - 1], Digit(r)];
    ParseTwoDigits(q % 10, r);
    TensAndUnits(y);
  }

  /** The last character of `String(n)` is the digit `n % 10`. */
  lemma LastDigit(n: nat)
    ensures var s := NatToString(n); s[|s| - 1] == Digit(n % 10)
  {
  }

  lemma ParseTwoDigits(a: nat, b: nat)
    requires a < 10 && b < 10
    ensures ParseNat([Digit(a), Digit(b)]) == a * 10 + b
  {
    var s := [Digit(a), Digit(b)];
    assert s[..|s| - 1] == [Digit(a)];
    assert [Digit(a)][..0] == [];
    assert ParseNat([Digit(a)]) == a;
  }

  /** The last two decimal digits of `y` make up `y % 100`. */
  lemma TensAndUnits(y: nat)
    ensures y % 100 == ((y / 10) % 10) * 10 + y % 10
  {
    var q, r := y / 10, y % 10;
    var a, b := q / 10, q % 10;
    assert y == 10 * q + r;
    assert q == 10 * a + b;
    assert y == 100 * a + (b * 10 + r);
    assert 0 <= b * 10 + r < 100;
  }

  /** Years 0 to 9 give a one-character field, so the line is one character short. */
  lemma ShortYearField(y: int)
    requires 0 <= y < 10
    ensures YearField(y) == [Digit(y)]
  {
  }

  /** Years -9 to -1 keep their minus sign: the field is `-` and the digit. */
  lemma NegativeYearField(y: int)
    requires -10 < y < 0
    ensures YearField(y) == ['-', Digit(-y)]
  {
    assert IntToString(y) == "-" + [Digit(-y)];
  }

  /** The sub-second field is one digit, `floor(ms / 100)`, for a real millisecond count. */
  lemma TenthsIsOneDigit(ms: nat)
    requires ms < 1000
    ensures |Tenths(ms)| == 1 && Tenths(ms)[0] == Digit(ms / 100)
  {
  }

  /** Where each field of the template lands, for fields of the usual widths. */
  lemma LayoutPositions(dd: string, mo: string, yy: string, hh: string, mi: string, ss: string, t: string)
    requires |dd| == 2 && |mo| == 2 && |yy| == 2 && |hh| == 2 && |mi| == 2 && |ss| == 2 && |t| == 1
    ensures var r := Layout(dd, mo, yy, hh, mi, ss, t);
      && |r| == 19
      && r[2] == '/' && r[5] == '/' && r[8] == ' '
      && r[11] == ':' && r[14] == ':' && r[17] == '.'
      && r[0..2] == dd && r[3..5] == mo && r[6..8] == yy
      && r[9..11] == hh && r[12..14] == mi && r[15..17] == ss && r[18] == t[0]
  {
    var r := Layout(dd, mo, yy, hh, mi, ss, t);
    assert r[3..5] == [mo[0], mo[1]] == mo;
    assert r[6..8] == [yy[0], yy[1]] == yy;
    assert r[9..11] == [hh[0], hh[1]] == hh;
    assert r[12..14] == [mi[0], mi[1]] == mi;
    assert r[15..17] == [ss[0], ss[1]] == ss;
  }

  /**
   * The layout: for a date in range whose year has at least two digits, the
   * line is 19 characters, the separators sit at fixed positions, and every
   * field reads back as the component it shows (the month one-based).
   */
  lemma {:induction false} CurrentDateTimeLayout(d: LocalDate)
    requires InRange(d) && d.fullYear >= 10
    ensures var r := CurrentDateTime(d);
      && |r| == 19
      && r[2] == '/' && r[5] == '/' && r[8] == ' '
      && r[11] == ':' && r[14] == ':' && r[17] == '.'
      && AllDigits(r[0..2]) && ParseNat(r[0..2]) == d.date
      && AllDigits(r[3..5]) && ParseNat(r[3..5]) == d.month + 1
      && AllDigits(r[6..8]) && ParseNat(r[6..8]) == d.fullYear % 100
      && AllDigits(r[9..11]) && ParseNat(r[9..11]) == d.hours
      && AllDigits(r[12..14]) && ParseNat(r[12..14]) == d.minutes
      && AllDigits(r[15..17]) && ParseNat(r[15..17]) == d.seconds
      && r[18] == Digit(d.milliseconds / 100)
  {
    TwoDigitsRoundTrip(d.date);
    TwoDigitsRoundTrip(d.month + 1);
    TwoDigitsRoundTrip(d.hours);
    TwoDigitsRoundTrip(d.minutes);
    TwoDigitsRoundTrip(d.seconds);
    YearFieldIsYearModHundred(d.fullYear);
    TenthsIsOneDigit(d.milliseconds);
    var dd, mo, yy := TwoDigits(d.date), TwoDigits(d.month + 1), YearField(d.fullYear);
    var hh, mi, ss, t := TwoDigits(d.hours), TwoDigits(d.minutes), TwoDigits(d.seconds), Tenths(d.milliseconds);
    LayoutPositions(dd, mo, yy, hh, mi, ss, t);
    assert CurrentDateTime(d) == Layout(dd, mo, yy, hh, mi, ss, t);
  }
}
