/** `time.Unix(sec, 0).Format(time.RFC3339)` for a clock in UTC: epoch seconds
    to the timestamp form of section 5.6 of RFC 3339, "YYYY-MM-DDTHH:MM:SSZ".
    The calendar is the proleptic Gregorian one; days are converted with
    integer civil-date arithmetic. Also `int64(x)` on a float, which
    truncates toward zero. */
module Rfc3339 {
  import opened Optional
  import opened Calendar

  /** Seconds since the epoch split into a day count and the time of day;
      Euclidean division puts instants before 1970 on the right day. */
  function TimeOfDay(t: int): (r: (int, int, int, int))
    ensures var (days, hh, mm, ss) := r;
      0 <= hh < 24 && 0 <= mm < 60 && 0 <= ss < 60
      && t == days * 86400 + hh * 3600 + mm * 60 + ss
  {
    var secs := t % 86400;
    (t / 86400, secs / 3600, secs % 3600 / 60, secs % 60)
  }

  function DigitChar(d: int): char
    requires 0 <= d < 10
  {
    ('0' as int + d) as char
  }

  /** The decimal digits of `n`, most significant first, without padding. */
  function Decimal(n: nat): (s: string)
    ensures |s| >= 1
    ensures forall i :: 0 <= i < |s| ==> '0' <= s[i] <= '9'
    ensures n < 10 ==> |s| == 1
    ensures 10 <= n < 100 ==> |s| == 2
    ensures 100 <= n < 1000 ==> |s| == 3
    ensures 1000 <= n < 10000 ==> |s| == 4
    ensures 10000 <= n ==> |s| >= 5
  {
    if n < 10 then [DigitChar(n)] else Decimal(n / 10) + [DigitChar(n % 10)]
  }

  function Zeros(k: nat): (s: string)
    ensures |s| == k
    ensures forall i :: 0 <= i < k ==> s[i] == '0'
  {
    if k == 0 then "" else "0" + Zeros(k - 1)
  }

  /** `n` in decimal, left-padded with zeros to at least `width` characters. */
  function Pad(n: nat, width: nat): (s: string)
    ensures forall i :: 0 <= i < |s| ==> '0' <= s[i] <= '9'
    ensures |s| >= width
    ensures n < 100 && width == 2 ==> |s| == 2
    ensures n < 10000 && width == 4 ==> |s| == 4
  {
    var d := Decimal(n);
    if |d| >= width then d else Zeros(width - |d|) + d
  }

  /** Go's four-digit year: a minus sign for years before 0, then the absolute
      value padded to four digits. */
  function FormatYear(y: int): string {
    (if y < 0 then "-" else "") + Pad(if y < 0 then -y else y, 4)
  }

  /** `time.Unix(t, 0).Format(time.RFC3339)` with the local zone set to UTC. */
  function FormatUnix(t: int): (s: string)
    ensures LayoutShape(s)
  {
    var (days, hh, mm, ss) := TimeOfDay(t);
    FormatCivil(CivilFromDays(days), hh, mm, ss)
  }

  /** A date and a time of day in the layout. */
  function FormatCivil(c: Civil, hh: int, mm: int, ss: int): (s: string)
    requires 1 <= c.month <= 12 && 1 <= c.day <= 31
    requires 0 <= hh < 24 && 0 <= mm < 60 && 0 <= ss < 60
    ensures LayoutShape(s)
    ensures 0 <= c.year <= 9999 <==> |s| == 20
  {
    var y := FormatYear(c.year);
    var mo, d, h, mi, sec := Pad(c.month, 2), Pad(c.day, 2), Pad(hh, 2), Pad(mm, 2), Pad(ss, 2);
    LayoutTail(y, mo, d, h, mi, sec);
    Layout(y, mo, d, h, mi, sec)
  }

  /** What every formatted instant looks like: a year of at least four
      characters, then "-MM-DDTHH:MM:SSZ" with the separators in place. */
  predicate LayoutShape(s: string) {
    |s| >= 20 && s[|s| - 1] == 'Z' && s[|s| - 4] == ':' && s[|s| - 7] == ':'
    && s[|s| - 10] == 'T' && s[|s| - 13] == '-' && s[|s| - 16] == '-'
  }

  lemma LayoutTail(y: string, mo: string, d: string, h: string, mi: string, s: string)
    requires |y| >= 4 && |mo| == 2 && |d| == 2 && |h| == 2 && |mi| == 2 && |s| == 2
    ensures |Layout(y, mo, d, h, mi, s)| == |y| + 16
    ensures LayoutShape(Layout(y, mo, d, h, mi, s))
  {
    var tail := "-" + mo + "-" + d + "T" + h + ":" + mi + ":" + s + "Z";
    assert Layout(y, mo, d, h, mi, s) == y + tail;
    assert |tail| == 16;
    assert tail[0] == '-' && tail[3] == '-' && tail[6] == 'T' && tail[9] == ':' && tail[12] == ':';
  }

  /** The layout "2006-01-02T15:04:05Z" with its fields filled in. */
  function Layout(y: string, mo: string, d: string, h: string, mi: string, s: string): string {
    y + "-" + mo + "-" + d + "T" + h + ":" + mi + ":" + s + "Z"
  }

  lemma LayoutSlices(y: string, mo: string, d: string, h: string, mi: string, s: string)
    requires |y| == 4 && |mo| == 2 && |d| == 2 && |h| == 2 && |mi| == 2 && |s| == 2
    ensures var r := Layout(y, mo, d, h, mi, s);
      && |r| == 20
      && r[4] == '-' && r[7] == '-' && r[10] == 'T' && r[13] == ':' && r[16] == ':' && r[19] == 'Z'
      && r[0..4] == y && r[5..7] == mo && r[8..10] == d
      && r[11..13] == h && r[14..16] == mi && r[17..19] == s
  {
    var r := Layout(y, mo, d, h, mi, s);
    var p := y + "-" + mo + "-" + d + "T";
    var q := p + h + ":" + mi + ":";
    assert r == q + s + "Z";
    assert |p| == 11 && |q| == 17;
    assert r[..11] == p && r[..17] == q;
    assert p[..4] == y && p[5..7] == mo && p[8..10] == d;
    assert q[11..13] == h && q[14..16] == mi;
    assert r[17..19] == s;
  }

  /** The year of the instant `t`. */
  function YearOf(t: int): int {
    CivilFromDays(TimeOfDay(t).0).year
  }

  /** The value of a string of decimal digits. */
  function DigitsValue(s: string): (n: int)
    requires forall i :: 0 <= i < |s| ==> '0' <= s[i] <= '9'
    decreases |s|
  {
    if |s| == 0 then 0
    else DigitsValue(s[..|s| - 1]) * 10 + (s[|s| - 1] as int - '0' as int)
  }

  predicate AllDigits(s: string) {
    forall i :: 0 <= i < |s| ==> '0' <= s[i] <= '9'
  }

  /** The fields of a formatted timestamp: date, hour, minute, second. */
  datatype Fields = Fields(date: Civil, hh: int, mm: int, ss: int)

  /** Reads the fields of "YYYY-MM-DDTHH:MM:SSZ". */
  function ParseFields(s: string): Option<Fields> {
    if |s| == 20 && s[4] == '-' && s[7] == '-' && s[10] == 'T' && s[13] == ':' && s[16] == ':'
       && s[19] == 'Z'
       && AllDigits(s[0..4]) && AllDigits(s[5..7]) && AllDigits(s[8..10])
       && AllDigits(s[11..13]) && AllDigits(s[14..16]) && AllDigits(s[17..19])
    then
      Some(Fields(Civil(DigitsValue(s[0..4]), DigitsValue(s[5..7]), DigitsValue(s[8..10])),
                  DigitsValue(s[11..13]), DigitsValue(s[14..16]), DigitsValue(s[17..19])))
    else None
  }

  /** Reads back a timestamp of the form "YYYY-MM-DDTHH:MM:SSZ" as epoch
      seconds. */
  function ParseRfc3339(s: string): Option<int> {
    match ParseFields(s)
    case None => None
    case Some(f) => Some(DaysFromCivil(f.date) * 86400 + f.hh * 3600 + f.mm * 60 + f.ss)
  }

  lemma {:induction false} DecimalValue(n: nat)
    ensures DigitsValue(Decimal(n)) == n
    decreases n
  {
    if n >= 10 {
      DecimalValue(n / 10);
      var s := Decimal(n);
      assert s[..|s| - 1] == Decimal(n / 10);
    }
  }

  lemma {:induction false} LeadingZeroValue(s: string)
    requires AllDigits(s)
    ensures AllDigits("0" + s) && DigitsValue("0" + s) == DigitsValue(s)
    decreases |s|
  {
    if |s| > 0 {
      LeadingZeroValue(s[..|s| - 1]);
      assert ("0" + s)[..|"0" + s| - 1] == "0" + s[..|s| - 1];
    }
  }

  lemma {:induction false} ZerosValue(k: nat, s: string)
    requires AllDigits(s)
    ensures AllDigits(Zeros(k) + s) && DigitsValue(Zeros(k) + s) == DigitsValue(s)
    decreases k
  {
    if k == 0 {
      assert Zeros(k) + s == s;
    } else {
      ZerosValue(k - 1, s);
      var u := Zeros(k - 1) + s;
      LeadingZeroValue(u);
      assert Zeros(k) == "0" + Zeros(k - 1);
      assert Zeros(k) + s == "0" + u;
    }
  }

  /** Padding does not change the value read back. */
  lemma PadValue(n: nat, width: nat)
    ensures DigitsValue(Pad(n, width)) == n
  {
    DecimalValue(n);
    var d := Decimal(n);
    if |d| < width {
      assert AllDigits(d);
      ZerosValue(width - |d|, d);
      assert Pad(n, width) == Zeros(width - |d|) + d;
    } else {
      assert Pad(n, width) == d;
    }
  }

  /** A padded field of the layout: its width, its digits and its value. */
  lemma PadField(n: nat, width: nat)
    requires (width == 2 && n < 100) || (width == 4 && n < 10000)
    ensures |Pad(n, width)| == width && AllDigits(Pad(n, width))
    ensures DigitsValue(Pad(n, width)) == n
  {
    PadValue(n, width);
  }

  /** The parser reads each field of the layout back. */
  lemma ParseLayout(y: string, mo: string, d: string, h: string, mi: string, s: string)
    requires |y| == 4 && |mo| == 2 && |d| == 2 && |h| == 2 && |mi| == 2 && |s| == 2
    requires AllDigits(y) && AllDigits(mo) && AllDigits(d) && AllDigits(h) && AllDigits(mi) && AllDigits(s)
    ensures ParseFields(Layout(y, mo, d, h, mi, s)) ==
      Some(Fields(Civil(DigitsValue(y), DigitsValue(mo), DigitsValue(d)),
                  DigitsValue(h), DigitsValue(mi), DigitsValue(s)))
  {
    LayoutSlices(y, mo, d, h, mi, s);
  }

  /** Reading back a formatted instant of the years 0 to 9999 gives the
      instant: the formatter loses nothing. */
  lemma FormatParseRoundTrip(t: int)
    requires 0 <= YearOf(t) <= 9999
    ensures ParseRfc3339(FormatUnix(t)) == Some(t)
  {
    FormatFields(t);
    ParseOfFields(FormatUnix(t), t);
  }

  /** A string whose fields are the date and time of day of `t` reads back
      as `t`. */
  lemma ParseOfFields(s: string, t: int)
    requires var r := TimeOfDay(t);
      ParseFields(s) == Some(Fields(CivilFromDays(r.0), r.1, r.2, r.3))
    ensures ParseRfc3339(s) == Some(t)
  {
  }

  /** The fields read back from a formatted instant are its date and time of
      day. */
  lemma FormatFields(t: int)
    requires 0 <= YearOf(t) <= 9999
    ensures var r := TimeOfDay(t);
      ParseFields(FormatUnix(t)) == Some(Fields(CivilFromDays(r.0), r.1, r.2, r.3))
  {
    var r := TimeOfDay(t);
    CivilFields(CivilFromDays(r.0), r.1, r.2, r.3);
  }

  /** The parser reads back a formatted date and time of day of the years 0
      to 9999. */
  lemma CivilFields(c: Civil, hh: int, mm: int, ss: int)
    requires 0 <= c.year <= 9999 && 1 <= c.month <= 12 && 1 <= c.day <= 31
    requires 0 <= hh < 24 && 0 <= mm < 60 && 0 <= ss < 60
    ensures ParseFields(FormatCivil(c, hh, mm, ss)) == Some(Fields(c, hh, mm, ss))
  {
    var ys, ms, ds := Pad(c.year, 4), Pad(c.month, 2), Pad(c.day, 2);
    var hs, mis, ses := Pad(hh, 2), Pad(mm, 2), Pad(ss, 2);
    assert FormatCivil(c, hh, mm, ss) == Layout(ys, ms, ds, hs, mis, ses) by {
      assert FormatYear(c.year) == ys;
    }
    PadField(c.year, 4);
    PadField(c.month, 2);
    PadField(c.day, 2);
    PadField(hh, 2);
    PadField(mm, 2);
    PadField(ss, 2);
    ParseLayout(ys, ms, ds, hs, mis, ses);
  }

  /** `int64(x)` for a float64 `x` in range: truncation toward zero. */
  function TruncToInt(x: real): (n: int)
    ensures x >= 0.0 ==> n as real <= x < n as real + 1.0
    ensures x < 0.0 ==> n as real - 1.0 < x <= n as real
  {
    if x >= 0.0 || x == x.Floor as real then x.Floor else x.Floor + 1
  }

  /** The instant of the metrics fixture. */
  lemma FixtureTimestamp()
    ensures FormatUnix(1612906502) == "2021-02-09T21:35:02Z"
  {
    FixtureTimeOfDay();
    FixtureDate();
    FixtureLayout();
  }

  lemma FixtureLayout()
    ensures FormatCivil(Civil(2021, 2, 9), 21, 35, 2) == "2021-02-09T21:35:02Z"
  {
    FixtureDigits();
    assert FormatYear(2021) == "2021";
    assert FormatCivil(Civil(2021, 2, 9), 21, 35, 2) == Layout("2021", "02", "09", "21", "35", "02");
  }

  lemma FixtureTimeOfDay()
    ensures TimeOfDay(1612906502) == (18667, 21, 35, 2)
  {
  }

  lemma FixtureDigits()
    ensures Pad(2021, 4) == "2021" && Pad(2, 2) == "02" && Pad(9, 2) == "09"
    ensures Pad(21, 2) == "21" && Pad(35, 2) == "35"
  {
    assert Decimal(2) == "2";
    assert Decimal(20) == "20";
    assert Decimal(202) == "202";
    assert Decimal(2021) == "2021";
    assert Decimal(21) == "21";
    assert Decimal(35) == "35";
    assert Decimal(9) == "9";
    assert Zeros(1) == "0";
  }
}
