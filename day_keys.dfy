/**
 * The day identifier: a calendar date written `M-D-YYYY` in decimal, without zero padding,
 * as built at server/serverUtils.tsx (and server/UserService.tsx) by concatenating
 * `getMonth() + 1`, `'-'`, `getDate()`, `'-'`, `getFullYear()`; and the inverse that reading
 * a stored identifier back into a date relies on.
 */
module DayKeys {
  import opened Results
  import opened Calendar

  predicate IsDigit(c: char) { '0' <= c <= '9' }

  function DigitChar(d: int): (c: char)
    requires 0 <= d < 10
    ensures IsDigit(c) && DigitValue(c) == d
  {
    ['0', '1', '2', '3', '4', '5', '6', '7', '8', '9'][d]
  }

  function DigitValue(c: char): (d: int)
    requires IsDigit(c)
    ensures 0 <= d < 10
  {
    c as int - '0' as int
  }

  /** JavaScript's conversion of a non-negative integer to a string: decimal, no padding. */
  function NatToString(n: nat): (s: string)
    ensures |s| >= 1
    ensures forall i :: 0 <= i < |s| ==> IsDigit(s[i])
    ensures n >= 10 ==> s[0] != '0'
  {
    if n < 10 then [DigitChar(n)] else NatToString(n / 10) + [DigitChar(n % 10)]
  }

  /** The value of a non-empty string of decimal digits (leading zeros allowed). */
  function DigitsValue(s: string): (n: nat)
    requires |s| >= 1 && forall i :: 0 <= i < |s| ==> IsDigit(s[i])
  {
    if |s| == 1 then DigitValue(s[0])
    else DigitsValue(s[..|s| - 1]) * 10 + DigitValue(s[|s| - 1])
  }

  /** Reads a decimal field of a day identifier; `None` for an empty or non-numeric field. */
  function ParseNat(s: string): Option<nat> {
    if |s| >= 1 && forall i :: 0 <= i < |s| ==> IsDigit(s[i]) then Some(DigitsValue(s)) else None
  }

  /** The day identifier of a date: `${month}-${day}-${year}`. */
  function DayKey(d: Date): (k: string)
    requires ValidDate(d)
    ensures |k| >= 5 && IsDigit(k[0])
  {
    NatToString(d.month) + "-" + NatToString(d.day) + "-" + NatToString(d.year)
  }

  /** `s.split(sep)`: the maximal separator-free pieces, in order; a string without `sep` is one piece. */
  function Split(s: string, sep: char): (parts: seq<string>)
    ensures |parts| >= 1
  {
    if s == [] then [""]
    else if s[0] == sep then [""] + Split(s[1..], sep)
    else var rest := Split(s[1..], sep); [[s[0]] + rest[0]] + rest[1..]
  }

  /**
   * Reads a stored day identifier back into a date, standing for `new Date(lastDailySolved)` on an
   * `M-D-YYYY` string; `None` (the invalid date) when it does not have three numeric fields naming
   * a real day.
   */
  function ParseDayKey(k: string): (r: Option<Date>)
    ensures r.Some? ==> ValidDate(r.value)
  {
    var parts := Split(k, '-');
    if |parts| != 3 then None
    else
      var m, d, y := ParseNat(parts[0]), ParseNat(parts[1]), ParseNat(parts[2]);
      if m.None? || d.None? || y.None? then None
      else if ValidDate(Date(m.value, d.value, y.value)) then Some(Date(m.value, d.value, y.value))
      else None
  }

  lemma {:induction false} DigitsOfNatToString(n: nat)
    ensures DigitsValue(NatToString(n)) == n
  {
    if n >= 10 {
      var s := NatToString(n);
      assert s[..|s| - 1] == NatToString(n / 10);
      DigitsOfNatToString(n / 10);
    }
  }

  /** Reading back a printed number gives the number. */
  lemma ParseNatOfNatToString(n: nat)
    ensures ParseNat(NatToString(n)) == Some(n)
  {
    DigitsOfNatToString(n);
  }

  /** An empty field, or one holding anything but a digit, does not read as a number. */
  lemma ParseNatRejects(s: string, i: int)
    requires 0 <= i < |s| && !IsDigit(s[i])
    ensures ParseNat(s).None?
    ensures ParseNat("").None?
  {
  }

  /** A printed number holds no separator. */
  lemma NatToStringHasNoDash(n: nat)
    ensures '-' !in NatToString(n)
  {
  }

  /** Splitting a separator-free string gives that one string. */
  lemma {:induction false} SplitWithoutSeparator(a: string, sep: char)
    requires sep !in a
    ensures Split(a, sep) == [a]
  {
    if a != [] {
      assert a[0] != sep;
      SplitWithoutSeparator(a[1..], sep);
      assert [a[0]] + a[1..] == a;
    }
  }

  /** Splitting `a + sep + b` where `a` holds no separator peels off `a`. */
  lemma {:induction false} SplitAtFirstSeparator(a: string, sep: char, b: string)
    requires sep !in a
    ensures Split(a + [sep] + b, sep) == [a] + Split(b, sep)
  {
    if a == [] {
      assert a + [sep] + b == [sep] + b;
      assert ([sep] + b)[1..] == b;
    } else {
      assert (a + [sep] + b)[1..] == a[1..] + [sep] + b;
      SplitAtFirstSeparator(a[1..], sep, b);
      assert [a[0]] + a[1..] == a;
    }
  }

  /** Splitting a day identifier on '-' recovers the three printed fields. */
  lemma SplitDayKey(d: Date)
    requires ValidDate(d)
    ensures Split(DayKey(d), '-') == [NatToString(d.month), NatToString(d.day), NatToString(d.year)]
  {
    var m, dd, y := NatToString(d.month), NatToString(d.day), NatToString(d.year);
    NatToStringHasNoDash(d.month);
    NatToStringHasNoDash(d.day);
    NatToStringHasNoDash(d.year);
    assert DayKey(d) == m + ['-'] + (dd + ['-'] + y);
    SplitAtFirstSeparator(m, '-', dd + ['-'] + y);
    SplitAtFirstSeparator(dd, '-', y);
    SplitWithoutSeparator(y, '-');
  }

  /** Reading a day identifier back gives the date it was written from. */
  lemma ParseDayKeyRoundTrip(d: Date)
    requires ValidDate(d)
    ensures ParseDayKey(DayKey(d)) == Some(d)
  {
    SplitDayKey(d);
    ParseNatOfNatToString(d.month);
    ParseNatOfNatToString(d.day);
    ParseNatOfNatToString(d.year);
  }

  /** Distinct days have distinct identifiers, so an identifier names one day. */
  lemma DayKeyInjective(a: Date, b: Date)
    requires ValidDate(a) && ValidDate(b)
    ensures DayKey(a) == DayKey(b) <==> a == b
  {
    if DayKey(a) == DayKey(b) {
      ParseDayKeyRoundTrip(a);
      ParseDayKeyRoundTrip(b);
    }
  }
}
