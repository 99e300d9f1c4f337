/**
  Timestamps in the fixed layout `2006-01-02T15:04:05Z` that both timestamp
  columns of the input must follow: four digits of year, two of month, day,
  hour, minute and second, the literal separators `-`, `T`, `:` and a final `Z`.
  Parsing checks the ranges Go's time package checks for this layout: month
  1..12, day within the month (leap years as in the Gregorian calendar), hour
  below 24, minute and second below 60.
*/
module Timestamps {
  import opened Wrappers

  /** A UTC instant at one-second precision. */
  datatype Time = Time(year: nat, month: nat, day: nat, hour: nat, minute: nat, second: nat)

  /** The reference layout; its digits mark the numeric positions, every other character is literal. */
  const Layout: string := "2006-01-02T15:04:05Z"

  predicate IsLeapYear(y: nat) {
    y % 4 == 0 && (y % 100 != 0 || y % 400 == 0)
  }

  function DaysIn(month: nat, year: nat): (n: nat)
    requires 1 <= month <= 12
    ensures 28 <= n <= 31
  {
    if month == 2 then (if IsLeapYear(year) then 29 else 28)
    else if month == 4 || month == 6 || month == 9 || month == 11 then 30
    else 31
  }

  /** The instants the layout can denote. */
  predicate ValidTime(t: Time) {
    t.year <= 9999 &&
    1 <= t.month <= 12 && 1 <= t.day <= DaysIn(t.month, t.year) &&
    t.hour < 24 && t.minute < 60 && t.second < 60
  }

  predicate IsDigit(c: char) {
    '0' <= c <= '9'
  }

  predicate AllDigits(s: string) {
    forall i :: 0 <= i < |s| ==> IsDigit(s[i])
  }

  function DigitValue(c: char): (d: nat)
    requires IsDigit(c)
    ensures d < 10
  {
    c as int - '0' as int
  }

  function DigitChar(d: nat): (c: char)
    requires d < 10
    ensures IsDigit(c) && DigitValue(c) == d
  {
    ('0' as int + d) as char
  }

  function Pow10(n: nat): (p: nat)
    ensures p >= 1
  {
    if n == 0 then 1 else 10 * Pow10(n - 1)
  }

  /** The number a string of decimal digits denotes. */
  function Decimal(s: string): (n: nat)
    requires AllDigits(s)
    ensures n < Pow10(|s|)
  {
    if s == [] then 0 else 10 * Decimal(s[..|s| - 1]) + DigitValue(s[|s| - 1])
  }

  /** `n` written with exactly `width` digits, leading zeros included. */
  function Padded(n: nat, width: nat): (s: string)
    requires n < Pow10(width)
    ensures |s| == width && AllDigits(s)
  {
    if width == 0 then [] else Padded(n / 10, width - 1) + [DigitChar(n % 10)]
  }

  /** Does `s` have the shape of the layout: digits where it has digits, its separators elsewhere? */
  predicate MatchesLayout(s: string) {
    |s| == |Layout| &&
    forall i :: 0 <= i < |s| ==> if IsDigit(Layout[i]) then IsDigit(s[i]) else s[i] == Layout[i]
  }

  /** The six numeric fields of a string of the layout's shape are all digits. */
  lemma LayoutDigits(s: string)
    requires MatchesLayout(s)
    ensures AllDigits(s[0..4]) && AllDigits(s[5..7]) && AllDigits(s[8..10])
    ensures AllDigits(s[11..13]) && AllDigits(s[14..16]) && AllDigits(s[17..19])
  {
    forall lo, hi | (lo, hi) in [(0, 4), (5, 7), (8, 10), (11, 13), (14, 16), (17, 19)]
      ensures AllDigits(s[lo..hi])
    {
      forall i | 0 <= i < hi - lo ensures IsDigit(s[lo..hi][i]) {
        assert s[lo..hi][i] == s[lo + i];
        assert IsDigit(Layout[lo + i]);
      }
    }
  }

  /** The fields of a string of the layout's shape, without range checks. */
  function Fields(s: string): Time
    requires MatchesLayout(s)
  {
    LayoutDigits(s);
    Time(Decimal(s[0..4]), Decimal(s[5..7]), Decimal(s[8..10]),
         Decimal(s[11..13]), Decimal(s[14..16]), Decimal(s[17..19]))
  }

  /**
    Parses `s` with the layout: `None` where Go's parser reports an error, and
    also for the one-digit hour and the fractional seconds Go accepts.
  */
  function Parse(s: string): (r: Option<Time>)
    ensures r.Some? ==> ValidTime(r.value)
    ensures r.Some? <==> MatchesLayout(s) && ValidTime(Fields(s))
  {
    if MatchesLayout(s) && ValidTime(Fields(s)) then Some(Fields(s)) else None
  }

  /** `a`, `b` and `c` with `sep` between them. */
  function Joined(a: string, sep: char, b: string, c: string): (s: string)
    ensures |s| == |a| + |b| + |c| + 2
  {
    a + [sep] + b + [sep] + c
  }

  lemma JoinedParts(a: string, sep: char, b: string, c: string)
    ensures var s := Joined(a, sep, b, c);
      s[..|a|] == a && s[|a|] == sep && s[|a| + 1..|a| + 1 + |b|] == b &&
      s[|a| + 1 + |b|] == sep && s[|a| + 2 + |b|..] == c
  {
  }

  /** Writes a valid instant in the layout. */
  function Format(t: Time): (s: string)
    requires ValidTime(t)
    ensures |s| == |Layout|
  {
    Joined(Padded(t.year, 4), '-', Padded(t.month, 2), Padded(t.day, 2)) + "T" +
    Joined(Padded(t.hour, 2), ':', Padded(t.minute, 2), Padded(t.second, 2)) + "Z"
  }

  lemma {:induction false} DecimalOfPadded(n: nat, width: nat)
    requires n < Pow10(width)
    ensures Decimal(Padded(n, width)) == n
  {
    if width > 0 {
      var s := Padded(n, width);
      assert s[..|s| - 1] == Padded(n / 10, width - 1);
      DecimalOfPadded(n / 10, width - 1);
    }
  }

  lemma {:induction false} PaddedOfDecimal(s: string)
    requires AllDigits(s)
    ensures Padded(Decimal(s), |s|) == s
  {
    if s != [] {
      var init := s[..|s| - 1];
      assert AllDigits(init);
      var n := Decimal(s);
      assert n / 10 == Decimal(init) && n % 10 == DigitValue(s[|s| - 1]);
      PaddedOfDecimal(init);
      assert s == init + [s[|s| - 1]];
    }
  }

  lemma FormatShape(t: Time)
    requires ValidTime(t)
    ensures MatchesLayout(Format(t))
    ensures var s := Format(t);
      s[0..4] == Padded(t.year, 4) && s[5..7] == Padded(t.month, 2) &&
      s[8..10] == Padded(t.day, 2) && s[11..13] == Padded(t.hour, 2) &&
      s[14..16] == Padded(t.minute, 2) && s[17..19] == Padded(t.second, 2)
  {
    var s := Format(t);
    var date := Joined(Padded(t.year, 4), '-', Padded(t.month, 2), Padded(t.day, 2));
    var clock := Joined(Padded(t.hour, 2), ':', Padded(t.minute, 2), Padded(t.second, 2));
    JoinedParts(Padded(t.year, 4), '-', Padded(t.month, 2), Padded(t.day, 2));
    JoinedParts(Padded(t.hour, 2), ':', Padded(t.minute, 2), Padded(t.second, 2));
    assert s == date + "T" + clock + "Z";
    assert s[..10] == date;
    assert s[11..19] == clock;
    assert s[10] == 'T' && s[19] == 'Z';
    forall i | 0 <= i < 10 ensures s[i] == date[i] { assert s[i] == s[..10][i]; }
    forall i | 11 <= i < 19 ensures s[i] == clock[i - 11] { assert s[i] == s[11..19][i - 11]; }
    assert s[0..4] == date[..4];
    assert s[5..7] == date[5..7];
    assert s[8..10] == date[8..];
    assert s[11..13] == clock[..2];
    assert s[14..16] == clock[3..5];
    assert s[17..19] == clock[6..];
  }

  /** Every valid instant, once formatted, parses back to itself. */
  lemma ParseFormat(t: Time)
    requires ValidTime(t)
    ensures Parse(Format(t)) == Some(t)
  {
    FormatShape(t);
    DecimalOfPadded(t.year, 4);
    DecimalOfPadded(t.month, 2);
    DecimalOfPadded(t.day, 2);
    DecimalOfPadded(t.hour, 2);
    DecimalOfPadded(t.minute, 2);
    DecimalOfPadded(t.second, 2);
  }

  /** Whatever parses is given back by formatting: the parsed instant loses nothing of the text. */
  lemma FormatParse(s: string)
    requires Parse(s).Some?
    ensures Format(Parse(s).value) == s
  {
    var t := Parse(s).value;
    LayoutDigits(s);
    PaddedOfDecimal(s[0..4]);
    PaddedOfDecimal(s[5..7]);
    PaddedOfDecimal(s[8..10]);
    PaddedOfDecimal(s[11..13]);
    PaddedOfDecimal(s[14..16]);
    PaddedOfDecimal(s[17..19]);
    FormatShape(t);
    var f := Format(t);
    forall i | 0 <= i < |s| ensures f[i] == s[i] {
      if 0 <= i < 4 { assert f[i] == f[0..4][i]; }
      else if 5 <= i < 7 { assert f[i] == f[5..7][i - 5]; }
      else if 8 <= i < 10 { assert f[i] == f[8..10][i - 8]; }
      else if 11 <= i < 13 { assert f[i] == f[11..13][i - 11]; }
      else if 14 <= i < 16 { assert f[i] == f[14..16][i - 14]; }
      else if 17 <= i < 19 { assert f[i] == f[17..19][i - 17]; }
    }
  }
}
