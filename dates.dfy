/** Calendar days as pandas parses and prints them: the `%d.%m.%Y` format of
    the raw detector files, and the `YYYY-MM-DD HH:00` snapshot key that the
    generators store and the dashboards look up. */
module Dates {
  import opened Frames
  import opened TextUtil

  predicate IsLeapYear(y: nat)
  {
    y % 4 == 0 && (y % 100 != 0 || y % 400 == 0)
  }

  function DaysInMonth(y: nat, m: nat): (n: nat)
    requires 1 <= m <= 12
    ensures 28 <= n <= 31
  {
    if m == 2 then (if IsLeapYear(y) then 29 else 28)
    else if m == 4 || m == 6 || m == 9 || m == 11 then 30
    else 31
  }

  /** A day that exists in the proleptic Gregorian calendar. */
  predicate ValidDate(d: Date)
  {
    1 <= d.month <= 12 && 1 <= d.day <= DaysInMonth(d.year, d.month)
  }

  /** Chronological order of days. */
  predicate DateLess(a: Date, b: Date)
  {
    a.year < b.year || (a.year == b.year && (a.month < b.month || (a.month == b.month && a.day < b.day)))
  }

  /** pandas keeps datetimes as signed 64-bit nanoseconds since 1970: midnight of
      a day is representable from 1677-09-22 through 2262-04-11. */
  predicate InTimestampRange(d: Date)
  {
    !DateLess(d, Date(1677, 9, 22)) && !DateLess(Date(2262, 4, 11), d)
  }

  // ----- parsing `%d.%m.%Y` -----

  /** A `%d` field: one digit 1-9, a blank then 1-9, or two digits from 01 to 31. */
  function DayField(s: string): (r: Option<nat>)
    ensures r.Some? ==> 1 <= r.value <= 31
  {
    if |s| == 1 && '1' <= s[0] <= '9' then Some(DigitValue(s[0]))
    else if |s| == 2 && s[0] == ' ' && '1' <= s[1] <= '9' then Some(DigitValue(s[1]))
    else if |s| == 2 && AllDigits(s) && 1 <= DigitsValue(s) <= 31 then Some(DigitsValue(s))
    else None
  }

  /** A `%m` field: one digit 1-9 or two digits from 01 to 12. */
  function MonthField(s: string): (r: Option<nat>)
    ensures r.Some? ==> 1 <= r.value <= 12
  {
    if |s| == 1 && '1' <= s[0] <= '9' then Some(DigitValue(s[0]))
    else if |s| == 2 && AllDigits(s) && 1 <= DigitsValue(s) <= 12 then Some(DigitsValue(s))
    else None
  }

  /** A `%Y` field: exactly four digits. */
  function YearField(s: string): (r: Option<nat>)
    ensures r.Some? ==> r.value < 10000
  {
    if |s| == 4 && AllDigits(s) then
      PadNatBound(s);
      Some(DigitsValue(s))
    else None
  }

  lemma {:induction false} PadNatBound(s: string)
    requires AllDigits(s)
    ensures DigitsValue(s) < Power10(|s|)
    decreases |s|
  {
    if s != [] { PadNatBound(s[..|s| - 1]); }
  }

  /** The three `.`-separated fields of a string with exactly two dots. */
  function SplitFields(s: string): (r: Option<(string, string, string)>)
    ensures r.Some? ==> s == r.value.0 + "." + r.value.1 + "." + r.value.2
    ensures r.Some? ==> '.' !in r.value.0 && '.' !in r.value.1
  {
    match SplitOnce(s, '.')
    case None => None
    case Some((dd, rest)) =>
      match SplitOnce(rest, '.')
      case None => None
      case Some((mm, yy)) => Some((dd, mm, yy))
  }

  /** `pd.to_datetime(tag, format="%d.%m.%Y")` on one string: the whole string
      must match the format, name a real day, and fit pandas' nanosecond range. */
  function ParseDmy(s: string): (r: Result<Date>)
    ensures r.Ok? ==> ValidDate(r.value) && InTimestampRange(r.value)
    ensures r.Ok? ==> 8 <= |s| <= 10 && s[|s| - 5] == '.'
    ensures r.Err? ==> r.error.ValueError?
  {
    var fields := SplitFields(s);
    if fields.None? then Err(ValueError("time data does not match format"))
    else
      var (dd, mm, yy) := fields.value;
      var day, month, year := DayField(dd), MonthField(mm), YearField(yy);
      if day.None? || month.None? || year.None? then Err(ValueError("time data does not match format"))
      else
        var d := Date(year.value, month.value, day.value);
        if !ValidDate(d) then Err(ValueError("day is out of range for month"))
        else if !InTimestampRange(d) then Err(ValueError("out of bounds nanosecond timestamp"))
        else
          assert |dd| <= 2 && |mm| <= 2 && |yy| == 4;
          assert s[|s| - 5] == (dd + "." + mm + "." + yy)[|dd| + |mm| + 1];
          Ok(d)
  }

  // ----- printing -----

  /** `str(n).zfill(w)` for a natural number. */
  function PadNat(n: nat, w: nat): string
  {
    Zfill(NatToStr(n), w)
  }

  /** `strftime("%d.%m.%Y")`: the form the raw files use. */
  function FormatDmy(d: Date): string
  {
    PadNat(d.day, 2) + "." + PadNat(d.month, 2) + "." + PadNat(d.year, 4)
  }

  /** `strftime("%Y-%m-%d")`. */
  function FormatYmd(d: Date): string
  {
    PadNat(d.year, 4) + "-" + PadNat(d.month, 2) + "-" + PadNat(d.day, 2)
  }

  /** A day in pandas' range has a four-digit year. */
  lemma RangeYear(d: Date)
    requires InTimestampRange(d)
    ensures 1677 <= d.year <= 2262 && d.year < Power10(4)
  {
    assert Power10(4) == 10000;
  }

  /** Printing a valid day in the raw format and parsing it back gives the same day. */
  lemma ParseFormatDmy(d: Date)
    requires ValidDate(d) && InTimestampRange(d)
    ensures ParseDmy(FormatDmy(d)) == Ok(d)
  {
    RangeYear(d);
    assert Power10(2) == 100;
    PadNatFacts(d.day, 2);
    PadNatFacts(d.month, 2);
    PadNatFacts(d.year, 4);
    var dd, mm, yy := PadNat(d.day, 2), PadNat(d.month, 2), PadNat(d.year, 4);
    assert '.' !in dd && '.' !in mm && '.' !in yy by {
      assert forall i :: 0 <= i < 2 ==> IsDigit(dd[i]) && IsDigit(mm[i]);
      assert forall i :: 0 <= i < 4 ==> IsDigit(yy[i]);
    }
    assert FormatDmy(d) == dd + ['.'] + (mm + "." + yy);
    SplitOnceJoined(dd, mm + "." + yy, '.');
    SplitOnceJoined(mm, yy, '.');
    assert SplitFields(FormatDmy(d)) == Some((dd, mm, yy));
    assert DayField(dd) == Some(d.day);
    assert MonthField(mm) == Some(d.month);
  }

  // ----- the snapshot key -----

  /** The snapshot key: the day as `%Y-%m-%d`, a blank, the hour as
      `str(hour).zfill(2)`, then `:00`. */
  function TimestampKey(d: Date, hour: int): string
  {
    FormatYmd(d) + " " + Zfill(IntToStr(hour), 2) + ":00"
  }

  /** The positions of a key that hold digits. */
  predicate DigitPosition(i: int)
  {
    0 <= i < 16 && i != 4 && i != 7 && i != 10 && i != 13
  }

  /** The shape of every key of a day pandas can hold and an hour 0-23. */
  predicate KeyShaped(k: string)
  {
    |k| == 16 && k[4] == '-' && k[7] == '-' && k[10] == ' ' && k[13] == ':' &&
    k[14] == '0' && k[15] == '0' &&
    forall i :: 0 <= i < |k| && DigitPosition(i) ==> IsDigit(k[i])
  }

  /** For a day in range and an hour 0-23 the key is 16 characters of fixed shape,
      and its fields denote the year, month, day and hour. */
  lemma KeyFacts(d: Date, h: int)
    requires ValidDate(d) && InTimestampRange(d) && 0 <= h < 24
    ensures KeyShaped(TimestampKey(d, h))
    ensures DigitsValue(TimestampKey(d, h)[..4]) == d.year
    ensures DigitsValue(TimestampKey(d, h)[5..7]) == d.month
    ensures DigitsValue(TimestampKey(d, h)[8..10]) == d.day
    ensures DigitsValue(TimestampKey(d, h)[11..13]) == h
  {
    RangeYear(d);
    assert Power10(2) == 100;
    PadNatFacts(d.day, 2);
    PadNatFacts(d.month, 2);
    PadNatFacts(d.year, 4);
    PadNatFacts(h, 2);
    var k := TimestampKey(d, h);
    var y, m, dd, hh := PadNat(d.year, 4), PadNat(d.month, 2), PadNat(d.day, 2), PadNat(h, 2);
    assert k == y + "-" + m + "-" + dd + " " + hh + ":00";
    assert k[..4] == y && k[5..7] == m && k[8..10] == dd && k[11..13] == hh;
    forall i | DigitPosition(i) ensures IsDigit(k[i]) {
      if i < 4 { assert k[i] == y[i]; }
      else if i < 7 { assert k[i] == m[i - 5]; }
      else if i < 10 { assert k[i] == dd[i - 8]; }
      else if i < 13 { assert k[i] == hh[i - 11]; }
    }
  }

  /** Reads a key back into its day and hour. */
  function ParseKey(k: string): (r: Option<(Date, int)>)
    ensures r.Some? ==> KeyShaped(k)
  {
    if KeyShaped(k) then
      assert AllDigits(k[..4]) && AllDigits(k[5..7]) && AllDigits(k[8..10]) && AllDigits(k[11..13]) by {
        assert forall i :: 0 <= i < 4 ==> k[..4][i] == k[i] && DigitPosition(i);
        assert forall i :: 0 <= i < 2 ==> k[5..7][i] == k[i + 5] && DigitPosition(i + 5);
        assert forall i :: 0 <= i < 2 ==> k[8..10][i] == k[i + 8] && DigitPosition(i + 8);
        assert forall i :: 0 <= i < 2 ==> k[11..13][i] == k[i + 11] && DigitPosition(i + 11);
      }
      Some((Date(DigitsValue(k[..4]), DigitsValue(k[5..7]), DigitsValue(k[8..10])), DigitsValue(k[11..13]) as int))
    else None
  }

  /** The key determines its day and hour. */
  lemma ParseKeyRoundTrip(d: Date, h: int)
    requires ValidDate(d) && InTimestampRange(d) && 0 <= h < 24
    ensures ParseKey(TimestampKey(d, h)) == Some((d, h))
  {
    KeyFacts(d, h);
  }

  /** Different (day, hour) pairs never share a key. */
  lemma KeyInjective(d1: Date, h1: int, d2: Date, h2: int)
    requires ValidDate(d1) && InTimestampRange(d1) && 0 <= h1 < 24
    requires ValidDate(d2) && InTimestampRange(d2) && 0 <= h2 < 24
    requires TimestampKey(d1, h1) == TimestampKey(d2, h2)
    ensures d1 == d2 && h1 == h2
  {
    ParseKeyRoundTrip(d1, h1);
    ParseKeyRoundTrip(d2, h2);
  }

  /** `ts.replace(":", "-")`: the key made safe for a file name. */
  function SafeTimestamp(ts: string): (r: string)
    ensures |r| == |ts| && ':' !in r
    ensures forall i :: 0 <= i < |ts| && ts[i] != ':' ==> r[i] == ts[i]
  {
    ReplaceChar(ts, ':', '-')
  }

  /** Two well-shaped keys with the same safe form are the same key: the only
      `:` sits at the same place in both. */
  lemma SafeTimestampInjective(k1: string, k2: string)
    requires KeyShaped(k1) && KeyShaped(k2)
    requires SafeTimestamp(k1) == SafeTimestamp(k2)
    ensures k1 == k2
  {
    forall i | 0 <= i < 16 ensures k1[i] == ':' <==> k2[i] == ':' {
      if i != 13 && i != 4 && i != 7 && i != 10 && i != 14 && i != 15 { assert DigitPosition(i); }
    }
    ReplaceCharInjective(k1, k2, ':', '-');
  }

  /** The digit fields of a well-shaped key. */
  lemma KeyFields(k: string)
    requires KeyShaped(k)
    ensures AllDigits(k[..4]) && AllDigits(k[5..7]) && AllDigits(k[8..10]) && AllDigits(k[11..13])
  {
    assert forall i :: 0 <= i < 4 ==> k[..4][i] == k[i] && DigitPosition(i);
    assert forall i :: 0 <= i < 2 ==> k[5..7][i] == k[i + 5] && DigitPosition(i + 5);
    assert forall i :: 0 <= i < 2 ==> k[8..10][i] == k[i + 8] && DigitPosition(i + 8);
    assert forall i :: 0 <= i < 2 ==> k[11..13][i] == k[i + 11] && DigitPosition(i + 11);
  }

  /** Well-shaped keys that read back alike are the same key. */
  lemma ParseKeyInjective(k1: string, k2: string)
    requires KeyShaped(k1) && KeyShaped(k2)
    requires ParseKey(k1) == ParseKey(k2)
    ensures k1 == k2
  {
    KeyFields(k1);
    KeyFields(k2);
    DigitsInjective(k1[..4], k2[..4]);
    DigitsInjective(k1[5..7], k2[5..7]);
    DigitsInjective(k1[8..10], k2[8..10]);
    DigitsInjective(k1[11..13], k2[11..13]);
    forall i | 0 <= i < 16
      ensures k1[i] == k2[i]
    {
      if i < 4 {
        assert k1[..4][i] == k1[i] && k2[..4][i] == k2[i];
      } else if 5 <= i < 7 {
        assert k1[5..7][i - 5] == k1[i] && k2[5..7][i - 5] == k2[i];
      } else if 8 <= i < 10 {
        assert k1[8..10][i - 8] == k1[i] && k2[8..10][i - 8] == k2[i];
      } else if 11 <= i < 13 {
        assert k1[11..13][i - 11] == k1[i] && k2[11..13][i - 11] == k2[i];
      }
    }
  }

  /** A string that does not read back as a valid in-range day and an hour
      0-23 is no key of such a day and hour. */
  lemma NotAKey(k: string)
    requires ParseKey(k).None? ||
             !(ValidDate(ParseKey(k).value.0) && InTimestampRange(ParseKey(k).value.0) && 0 <= ParseKey(k).value.1 < 24)
    ensures forall d: Date, h: int :: ValidDate(d) && InTimestampRange(d) && 0 <= h < 24 ==> k != TimestampKey(d, h)
  {
    forall d: Date, h: int | ValidDate(d) && InTimestampRange(d) && 0 <= h < 24
      ensures k != TimestampKey(d, h)
    {
      ParseKeyRoundTrip(d, h);
    }
  }

  /** `pd.to_datetime(k).strftime("%Y-%m-%d %H:00")` on one stored key: it
      succeeds exactly on the keys of a real day in pandas' range and an hour
      0-23, and then prints the key back unchanged. */
  function Reformat(k: string): (r: Option<string>)
    ensures r.Some? ==> r.value == k
    ensures r.Some? <==> exists d: Date, h: int :: ValidDate(d) && InTimestampRange(d) && 0 <= h < 24 && k == TimestampKey(d, h)
  {
    match ParseKey(k)
    case None => NotAKey(k); None
    case Some((d, h)) =>
      if ValidDate(d) && InTimestampRange(d) && 0 <= h < 24 then
        ParseKeyRoundTrip(d, h);
        KeyFacts(d, h);
        ParseKeyInjective(k, TimestampKey(d, h));
        Some(TimestampKey(d, h))
      else
        NotAKey(k);
        None
  }

  /** `pd.to_datetime(keys).strftime("%Y-%m-%d %H:00")` on a whole list: it
      fails as soon as one key does not parse, and otherwise gives every key
      back in place. */
  function ReformatAll(keys: seq<string>): (r: Option<seq<string>>)
    ensures r.None? <==> exists k :: k in keys && Reformat(k).None?
    ensures r.Some? ==> r.value == keys
  {
    if keys == [] then Some([])
    else match (Reformat(keys[0]), ReformatAll(keys[1..]))
      case (Some(t), Some(ts)) => Some([t] + ts)
      case _ => assert keys[0] in keys && forall k :: k in keys[1..] ==> k in keys; None
  }

  lemma ReformatKey(d: Date, h: int)
    requires ValidDate(d) && InTimestampRange(d) && 0 <= h < 24
    ensures Reformat(TimestampKey(d, h)) == Some(TimestampKey(d, h))
  {
    ParseKeyRoundTrip(d, h);
  }
}
