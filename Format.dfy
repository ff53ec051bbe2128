/**
 * Text formats of the widget: `pad2` and `formatTime` for the countdown
 * display ("MM:SS"), and the `YYYY-MM-DD` day key that partitions the
 * persisted state. Each format comes with a parser and a round-trip lemma,
 * so the formats are shown to lose no information.
 */
module Format {
  import opened Wrappers

  predicate IsDigit(c: char)
  {
    '0' <= c <= '9'
  }

  predicate AllDigits(s: string)
  {
    forall i :: 0 <= i < |s| ==> IsDigit(s[i])
  }

  function DigitChar(d: nat): (c: char)
    requires d < 10
    ensures IsDigit(c) && c as int - '0' as int == d
  {
    "0123456789"[d]
  }

  function DigitValue(c: char): nat
    requires IsDigit(c)
  {
    c as int - '0' as int
  }

  /** `String(n)` for a non-negative integer: its decimal digits. */
  function DecimalString(n: nat): (s: string)
    ensures AllDigits(s)
    ensures |s| == 1 <==> n < 10
    ensures 1 <= |s|
    ensures 10 <= n ==> s[0] != '0'
  {
    if n < 10 then [DigitChar(n)] else DecimalString(n / 10) + [DigitChar(n % 10)]
  }

  /** The number a string of decimal digits denotes (most significant first). */
  function DigitsValue(s: string): nat
    requires AllDigits(s)
  {
    if s == [] then 0 else DigitsValue(s[..|s| - 1]) * 10 + DigitValue(s[|s| - 1])
  }

  lemma {:induction false} DecimalStringValue(n: nat)
    ensures DigitsValue(DecimalString(n)) == n
  {
    if 10 <= n {
      var s := DecimalString(n / 10);
      DecimalStringValue(n / 10);
      assert (s + [DigitChar(n % 10)])[..|s|] == s;
    }
  }

  /** A leading zero does not change the value of a digit string. */
  lemma {:induction false} LeadingZeroValue(s: string)
    requires AllDigits(s)
    ensures AllDigits("0" + s) && DigitsValue("0" + s) == DigitsValue(s)
  {
    if s != [] {
      var init := s[..|s| - 1];
      LeadingZeroValue(init);
      assert ("0" + s)[..|"0" + s| - 1] == "0" + init;
    }
  }

  /** `pad2(n)`: `String(n).padStart(2, "0")`. */
  function Pad2(n: nat): (s: string)
    ensures AllDigits(s) && 2 <= |s|
    ensures n < 100 ==> |s| == 2
    ensures n < 10 ==> s == "0" + DecimalString(n)
    ensures 10 <= n ==> s == DecimalString(n)
  {
    var d := DecimalString(n);
    if |d| < 2 then "0" + d else d
  }

  lemma Pad2Value(n: nat)
    ensures DigitsValue(Pad2(n)) == n
  {
    DecimalStringValue(n);
    if n < 10 {
      LeadingZeroValue(DecimalString(n));
    }
  }

  /** `formatTime(sec)`: whole minutes and the seconds within the minute, each padded to two digits. */
  function FormatTime(sec: nat): (s: string)
    ensures 5 <= |s| && s[|s| - 3] == ':'
    ensures sec < 6000 ==> |s| == 5
  {
    Pad2(sec / 60) + ":" + Pad2(sec % 60)
  }

  /** Reads back "M…M:SS"; `None` for any other text or seconds of 60 and over. */
  function ParseTime(s: string): Option<nat>
  {
    if 4 <= |s| && s[|s| - 3] == ':' && AllDigits(s[..|s| - 3]) && AllDigits(s[|s| - 2..])
       && DigitsValue(s[|s| - 2..]) < 60
    then Some(DigitsValue(s[..|s| - 3]) * 60 + DigitsValue(s[|s| - 2..]))
    else None
  }

  lemma FormatTimeRoundTrip(sec: nat)
    ensures ParseTime(FormatTime(sec)) == Some(sec)
  {
    var m, r := Pad2(sec / 60), Pad2(sec % 60);
    var s := FormatTime(sec);
    assert s[..|s| - 3] == m && s[|s| - 2..] == r;
    Pad2Value(sec / 60);
    Pad2Value(sec % 60);
  }

  /** Two different second counts are never displayed alike. */
  lemma FormatTimeInjective(a: nat, b: nat)
    ensures FormatTime(a) == FormatTime(b) ==> a == b
  {
    FormatTimeRoundTrip(a);
    FormatTimeRoundTrip(b);
  }

  /**
   * The fields of a local date as `Date` reports them: `getFullYear()`,
   * the zero-based `getMonth()` and `getDate()`.
   */
  datatype LocalDate = LocalDate(year: nat, monthIndex: nat, date: nat)
  {
    predicate Valid()
    {
      monthIndex < 12 && 1 <= date <= 31
    }
  }

  /** `todayKey()` for the given date: year, one-based month and day joined by '-'. */
  function DayKey(d: LocalDate): (k: string)
    requires d.Valid()
    ensures 7 <= |k| && k[|k| - 6] == '-' && k[|k| - 3] == '-'
  {
    DecimalString(d.year) + "-" + Pad2(d.monthIndex + 1) + "-" + Pad2(d.date)
  }

  /** Reads back a day key; `None` for text that no valid date produces. */
  function ParseDayKey(k: string): Option<LocalDate>
  {
    if 7 <= |k| && k[|k| - 6] == '-' && k[|k| - 3] == '-'
       && AllDigits(k[..|k| - 6]) && AllDigits(k[|k| - 5..|k| - 3]) && AllDigits(k[|k| - 2..])
    then
      var y, m, d := DigitsValue(k[..|k| - 6]), DigitsValue(k[|k| - 5..|k| - 3]), DigitsValue(k[|k| - 2..]);
      if 1 <= m <= 12 && 1 <= d <= 31 then Some(LocalDate(y, m - 1, d)) else None
    else None
  }

  /** Where the three fields sit in "Y…Y-MM-DD". */
  lemma KeyFields(y: string, m: string, dd: string)
    requires |m| == 2 && |dd| == 2
    ensures var k := y + "-" + m + "-" + dd;
      |k| == |y| + 6 && k[..|k| - 6] == y && k[|k| - 5..|k| - 3] == m && k[|k| - 2..] == dd
  {
    var k := y + "-" + m + "-" + dd;
    assert k[..|k| - 6] == y;
    assert k[|k| - 5..|k| - 3] == m;
    assert k[|k| - 2..] == dd;
  }

  lemma DayKeyRoundTrip(d: LocalDate)
    requires d.Valid()
    ensures ParseDayKey(DayKey(d)) == Some(d)
  {
    var y, m, dd := DecimalString(d.year), Pad2(d.monthIndex + 1), Pad2(d.date);
    var k := DayKey(d);
    assert k == y + "-" + m + "-" + dd;
    KeyFields(y, m, dd);
    DecimalStringValue(d.year);
    Pad2Value(d.monthIndex + 1);
    Pad2Value(d.date);
    assert AllDigits(k[..|k| - 6]) && AllDigits(k[|k| - 5..|k| - 3]) && AllDigits(k[|k| - 2..]);
    assert DigitsValue(k[..|k| - 6]) == d.year;
    assert DigitsValue(k[|k| - 5..|k| - 3]) == d.monthIndex + 1;
    assert DigitsValue(k[|k| - 2..]) == d.date;
  }

  /** A four-digit year gives the ten-character "YYYY-MM-DD" key. */
  lemma FourDigitYearKey(d: LocalDate)
    requires d.Valid() && 1000 <= d.year <= 9999
    ensures |DayKey(d)| == 10
  {
    assert |DecimalString(d.year / 1000)| == 1;
    assert |DecimalString(d.year / 100)| == 2;
    assert |DecimalString(d.year / 10)| == 3;
    KeyFields(DecimalString(d.year), Pad2(d.monthIndex + 1), Pad2(d.date));
  }

  /** Distinct calendar days get distinct keys. */
  lemma DayKeyInjective(a: LocalDate, b: LocalDate)
    requires a.Valid() && b.Valid()
    ensures DayKey(a) == DayKey(b) ==> a == b
  {
    DayKeyRoundTrip(a);
    DayKeyRoundTrip(b);
  }

  const StoragePrefix := "antiDoomscroll:"

  /** The local-storage key under which a day's state is saved. */
  function StorageKey(d: LocalDate): (k: string)
    requires d.Valid()
    ensures |k| == |StoragePrefix| + |DayKey(d)|
    ensures k[..|StoragePrefix|] == StoragePrefix && k[|StoragePrefix|..] == DayKey(d)
  {
    StoragePrefix + DayKey(d)
  }

  /** Each calendar day's record is stored under its own key. */
  lemma StorageKeyInjective(a: LocalDate, b: LocalDate)
    requires a.Valid() && b.Valid()
    ensures StorageKey(a) == StorageKey(b) ==> a == b
  {
    if StorageKey(a) == StorageKey(b) {
      assert StorageKey(a)[|StoragePrefix|..] == DayKey(a);
      assert StorageKey(b)[|StoragePrefix|..] == DayKey(b);
      DayKeyInjective(a, b);
    }
  }
}
