/** Dates of the database (`src/utility/database_helper_utility.rs`): chrono's
    `NaiveDateTime` written and read with the format `%Y%m%d%H%M%S`, the
    14-digit form GnuCash's SQLite back end keeps in its date columns. */
module DateTimes {
  import opened Wrappers
  import opened Text

  /** The range of years `chrono` can represent. */
  const MinYear: int := -262144
  const MaxYear: int := 262143

  /** A date and a time of day. A `second` of 60 stands for chrono's
      leap-second representation (second 59 with a nanosecond count of at
      least one second), which `%S` prints, and parses, as 60. */
  datatype DateTime = DateTime(year: int, month: int, day: int, hour: int, minute: int, second: int)

  /** The proleptic Gregorian leap-year rule. */
  predicate IsLeap(y: int) { y % 4 == 0 && (y % 100 != 0 || y % 400 == 0) }

  function DaysInMonth(y: int, m: int): (n: int)
    requires 1 <= m <= 12
    ensures 28 <= n <= 31
  {
    if m == 2 then (if IsLeap(y) then 29 else 28)
    else if m == 4 || m == 6 || m == 9 || m == 11 then 30
    else 31
  }

  predicate Valid(d: DateTime) {
    && MinYear <= d.year <= MaxYear
    && 1 <= d.month <= 12
    && 1 <= d.day <= DaysInMonth(d.year, d.month)
    && 0 <= d.hour < 24 && 0 <= d.minute < 60 && 0 <= d.second <= 60
  }

  type NaiveDateTime = d: DateTime | Valid(d) witness DateTime(0, 1, 1, 0, 0, 0)

  /** `NaiveDate::from_ymd(0, 1, 1).and_hms(0, 0, 0)`, the value a failed
      conversion leaves behind. */
  const NullDate: NaiveDateTime := DateTime(0, 1, 1, 0, 0, 0)

  function Pow10(w: nat): (p: nat)
    ensures p >= 1
  {
    if w == 0 then 1 else 10 * Pow10(w - 1)
  }

  /** The value of a string of decimal digits, most significant first. */
  function DigitsValue(s: string): (v: nat)
    requires AllDigits(s)
    ensures v < Pow10(|s|)
  {
    if s == [] then 0 else 10 * DigitsValue(s[..|s| - 1]) + DigitValue(s[|s| - 1])
  }

  /** `n` in exactly `w` decimal digits, zero-padded on the left. */
  function Fixed(n: nat, w: nat): (r: string)
    requires n < Pow10(w)
    ensures |r| == w && AllDigits(r) && DigitsValue(r) == n
  {
    if w == 0 then []
    else
      var r := Fixed(n / 10, w - 1) + [DigitChar(n % 10)];
      assert r[..|r| - 1] == Fixed(n / 10, w - 1);
      r
  }

  /** Every string of `w` digits is the `w`-digit form of its value. */
  lemma {:induction false} FixedOfDigits(s: string)
    requires AllDigits(s)
    ensures Fixed(DigitsValue(s), |s|) == s
  {
    if s != [] {
      var init := s[..|s| - 1];
      FixedOfDigits(init);
      var v := DigitsValue(s);
      DivMod10(DigitsValue(init), DigitValue(s[|s| - 1]));
      assert v / 10 == DigitsValue(init) && v % 10 == DigitValue(s[|s| - 1]);
      assert DigitChar(v % 10) == s[|s| - 1];
      assert s == init + [s[|s| - 1]];
    }
  }

  lemma DivMod10(a: nat, b: nat)
    requires b < 10
    ensures (10 * a + b) / 10 == a && (10 * a + b) % 10 == b
  {
  }

  /** `{:+05}`: sign and at least four digits, for years that `%Y` does not
      print as plain four digits. */
  function SignedYear(y: int): (r: string)
    requires y < 0 || y > 9999
    ensures |r| >= 5 && (r[0] == '-' || r[0] == '+') && AllDigits(r[1..])
  {
    var n := if y < 0 then -y else y;
    var digits := if n < 10000 then Fixed(n, 4) else NatToString(n / 10000) + Fixed(n % 10000, 4);
    (if y < 0 then "-" else "+") + digits
  }

  /** `%Y`: four zero-padded digits for the years 0 to 9999, otherwise an
      explicit sign followed by at least four digits. */
  function FormatYear(y: int): (r: string)
  {
    if 0 <= y <= 9999 then Fixed(y, 4) else SignedYear(y)
  }

  /** `convert_date_to_string_format`: the date in the `%Y%m%d%H%M%S` format. */
  function ConvertDateToStringFormat(d: NaiveDateTime): (r: string)
    ensures 0 <= d.year <= 9999 ==> |r| == 14 && AllDigits(r)
    ensures !(0 <= d.year <= 9999) ==> |r| >= 15 && (r[0] == '-' || r[0] == '+')
  {
    FormatYear(d.year) + FormatTail(d)
  }

  /** `%m%d%H%M%S`: the ten digits after the year. */
  function FormatTail(d: NaiveDateTime): (r: string)
    ensures |r| == 10 && AllDigits(r)
  {
    Fixed(d.month, 2) + (Fixed(d.day, 2) + (Fixed(d.hour, 2) + (Fixed(d.minute, 2) + Fixed(d.second, 2))))
  }

  /** A number read from the front of a string, and what follows it. */
  datatype Scan = Scan(value: int, rest: string)

  /** How many digits, at most `max`, `s` starts with. */
  function LeadingDigits(s: string, max: nat): (k: nat)
    ensures k <= max && k <= |s| && AllDigits(s[..k])
    ensures k < max && k < |s| ==> !IsDigit(s[k])
  {
    if max == 0 || s == [] || !IsDigit(s[0]) then 0
    else
      var k := 1 + LeadingDigits(s[1..], max - 1);
      assert s[..k] == [s[0]] + s[1..][..k - 1];
      k
  }

  /** chrono's `scan::number(s, 1, max)`: between one and `max` digits,
      as many as there are. */
  function ScanNumber(s: string, max: nat): (r: Option<Scan>)
    ensures r.Some? ==> r.value.value >= 0 && |r.value.rest| < |s|
  {
    var k := LeadingDigits(s, max);
    if k == 0 then None else Some(Scan(DigitsValue(s[..k]), s[k..]))
  }

  /** A two-digit field (`%m`, `%d`, `%H`, `%M`, `%S`): white space skipped,
      then one or two digits. */
  function ScanField(s: string): (r: Option<Scan>)
  {
    ScanNumber(TrimStart(s), 2)
  }

  /** `%Y` when parsing: white space skipped, then either a sign and any
      number of digits, or one to four digits. */
  function ScanYear(s: string): (r: Option<Scan>)
  {
    var t := TrimStart(s);
    if t != [] && (t[0] == '-' || t[0] == '+') then
      match ScanNumber(t[1..], |t| - 1)
      case None => None
      case Some(n) => Some(Scan(if t[0] == '-' then -n.value else n.value, n.rest))
    else ScanNumber(t, 4)
  }

  /** `NaiveDateTime::parse_from_str(s, "%Y%m%d%H%M%S")`: the six fields
      in order, nothing left over, and a date and time that exist. */
  function Parse(s: string): (r: Option<NaiveDateTime>)
  {
    var y := ScanYear(s);
    if y.None? then None else
    var mo := ScanField(y.value.rest);
    if mo.None? then None else
    var da := ScanField(mo.value.rest);
    if da.None? then None else
    var h := ScanField(da.value.rest);
    if h.None? then None else
    var mi := ScanField(h.value.rest);
    if mi.None? then None else
    var se := ScanField(mi.value.rest);
    if se.None? || se.value.rest != [] then None else
    var d := DateTime(y.value.value, mo.value.value, da.value.value, h.value.value, mi.value.value, se.value.value);
    if Valid(d) then Some(d) else None
  }

  /** `convert_string_to_date_format`: on success the parsed date and `true`,
      otherwise the null date and `false`. The caller's date is overwritten
      on both paths, so its old value plays no part. */
  method ConvertStringToDateFormat(s: string) returns (ok: bool, date: NaiveDateTime)
    ensures ok <==> Parse(s).Some?
    ensures ok ==> date == Parse(s).value
    ensures !ok ==> date == NullDate
  {
    var parsed := Parse(s);
    if parsed.Some? {
      date := parsed.value;
      ok := true;
    } else {
      date := NullDate;
      ok := false;
    }
  }

  /** `convert_string_to_date`: the parsed date, or an error naming the string. */
  function ConvertStringToDate(s: string): (r: Outcome<NaiveDateTime>)
    ensures !r.Panic?
    ensures r.Ok? <==> Parse(s).Some?
    ensures r.Ok? ==> r.value == Parse(s).value
    ensures r.Err? ==> r.message == "Failed to convert the given string '" + s + "' to a date."
  {
    match Parse(s)
    case Some(d) => Ok(d)
    case None => Err("Failed to convert the given string '" + s + "' to a date.")
  }

  // Round trips

  /** A run of exactly `max` digits is scanned in full. */
  lemma {:induction false} AllDigitsLeading(a: string, b: string, max: nat)
    requires AllDigits(a) && |a| == max
    ensures LeadingDigits(a + b, max) == max
  {
    if a != [] {
      assert (a + b)[1..] == a[1..] + b;
      AllDigitsLeading(a[1..], b, max - 1);
    }
  }

  /** `Parse` in terms of the six scans it performs. */
  lemma ParseOfScans(s: string, y: int, mo: int, da: int, h: int, mi: int, se: int,
                     r1: string, r2: string, r3: string, r4: string, r5: string)
    requires ScanYear(s) == Some(Scan(y, r1))
    requires ScanField(r1) == Some(Scan(mo, r2)) && ScanField(r2) == Some(Scan(da, r3))
    requires ScanField(r3) == Some(Scan(h, r4)) && ScanField(r4) == Some(Scan(mi, r5))
    requires ScanField(r5) == Some(Scan(se, []))
    ensures var d := DateTime(y, mo, da, h, mi, se);
            Parse(s) == if Valid(d) then Some(d) else None
  {
  }

  lemma ScanFieldFixed(n: nat, rest: string)
    requires n < 100
    ensures ScanField(Fixed(n, 2) + rest) == Some(Scan(n, rest))
  {
    var s := Fixed(n, 2) + rest;
    assert TrimStart(s) == s;
    AllDigitsLeading(Fixed(n, 2), rest, 2);
    assert s[..2] == Fixed(n, 2);
    assert s[2..] == rest;
  }

  lemma ScanYearFixed(n: nat, rest: string)
    requires n < 10000
    ensures ScanYear(Fixed(n, 4) + rest) == Some(Scan(n, rest))
  {
    var s := Fixed(n, 4) + rest;
    assert TrimStart(s) == s;
    AllDigitsLeading(Fixed(n, 4), rest, 4);
    assert s[..4] == Fixed(n, 4);
    assert s[4..] == rest;
  }

  lemma ParseFourDigitYear(d: NaiveDateTime)
    requires 0 <= d.year <= 9999
    ensures Parse(Fixed(d.year, 4) + FormatTail(d)) == Some(d)
  {
    var sec := Fixed(d.second, 2);
    var mi := Fixed(d.minute, 2) + sec;
    var h := Fixed(d.hour, 2) + mi;
    var da := Fixed(d.day, 2) + h;
    var mo := Fixed(d.month, 2) + da;
    assert mo == FormatTail(d);
    ScanYearFixed(d.year, mo);
    ScanFieldFixed(d.month, da);
    ScanFieldFixed(d.day, h);
    ScanFieldFixed(d.hour, mi);
    ScanFieldFixed(d.minute, sec);
    ScanFieldFixed(d.second, []);
    assert sec + [] == sec;
    ParseOfScans(Fixed(d.year, 4) + mo, d.year, d.month, d.day, d.hour, d.minute, d.second, mo, da, h, mi, sec);
  }

  lemma FormatFourDigitYear(d: NaiveDateTime)
    requires 0 <= d.year <= 9999
    ensures ConvertDateToStringFormat(d) == Fixed(d.year, 4) + FormatTail(d)
  {
  }

  /** Years 0 to 9999 survive the trip through the database text. */
  lemma ParseFormatRoundTrip(d: NaiveDateTime)
    requires 0 <= d.year <= 9999
    ensures Parse(ConvertDateToStringFormat(d)) == Some(d)
  {
    ParseFourDigitYear(d);
    FormatFourDigitYear(d);
  }

  lemma ConvertRoundTrip(d: NaiveDateTime)
    requires 0 <= d.year <= 9999
    ensures ConvertStringToDate(ConvertDateToStringFormat(d)) == Ok(d)
  {
    ParseFormatRoundTrip(d);
  }

  /** A year outside 0 to 9999 is written with a sign; reading it back, the
      signed year takes every digit that follows, so no month is left and
      the text does not parse. */
  lemma SignedYearDoesNotParse(d: NaiveDateTime)
    requires d.year < 0 || d.year > 9999
    ensures Parse(ConvertDateToStringFormat(d)) == None
  {
    var s := ConvertDateToStringFormat(d);
    SignedYearTakesAll(s);
    NothingAfterYear(s);
  }

  /** A sign followed by digits only is one signed year, with nothing left. */
  lemma SignedYearTakesAll(s: string)
    requires |s| >= 2 && (s[0] == '-' || s[0] == '+') && AllDigits(s[1..])
    ensures ScanYear(s).Some? && ScanYear(s).value.rest == []
  {
    var digits := s[1..];
    assert TrimStart(s) == s;
    AllDigitsLeading(digits, [], |digits|);
    assert digits + [] == digits;
  }

  /** With nothing after the year there is no month to read. */
  lemma NothingAfterYear(s: string)
    requires ScanYear(s).Some? && ScanYear(s).value.rest == []
    ensures Parse(s) == None
  {
  }

  /** Exactly fourteen digits parse to the fields they spell, when those make
      a date, and print back to the same text. */
  lemma ParseFourteenDigits(s: string)
    requires |s| == 14 && AllDigits(s)
    ensures var d := DateTime(DigitsValue(s[0..4]), DigitsValue(s[4..6]), DigitsValue(s[6..8]),
                              DigitsValue(s[8..10]), DigitsValue(s[10..12]), DigitsValue(s[12..14]));
            && Parse(s) == (if Valid(d) then Some(d) else None)
            && (Valid(d) ==> ConvertDateToStringFormat(d) == s)
  {
    var y, mo, da, h, mi, se := s[0..4], s[4..6], s[6..8], s[8..10], s[10..12], s[12..14];
    assert s == y + (mo + (da + (h + (mi + se))));
    ParseDigitGroups(y, mo, da, h, mi, se);
    var d := DateTime(DigitsValue(y), DigitsValue(mo), DigitsValue(da),
                      DigitsValue(h), DigitsValue(mi), DigitsValue(se));
    if Valid(d) {
      FormatDigitGroups(d, y, mo, da, h, mi, se);
    }
  }

  lemma ParseDigitGroups(y: string, mo: string, da: string, h: string, mi: string, se: string)
    requires |y| == 4 && |mo| == 2 && |da| == 2 && |h| == 2 && |mi| == 2 && |se| == 2
    requires AllDigits(y) && AllDigits(mo) && AllDigits(da) && AllDigits(h) && AllDigits(mi) && AllDigits(se)
    ensures var d := DateTime(DigitsValue(y), DigitsValue(mo), DigitsValue(da),
                              DigitsValue(h), DigitsValue(mi), DigitsValue(se));
            Parse(y + (mo + (da + (h + (mi + se))))) == if Valid(d) then Some(d) else None
  {
    FixedOfDigits(y);
    FixedOfDigits(mo);
    FixedOfDigits(da);
    FixedOfDigits(h);
    FixedOfDigits(mi);
    FixedOfDigits(se);
    var r4 := mi + se;
    var r3 := h + r4;
    var r2 := da + r3;
    var r1 := mo + r2;
    ScanYearFixed(DigitsValue(y), r1);
    ScanFieldFixed(DigitsValue(mo), r2);
    ScanFieldFixed(DigitsValue(da), r3);
    ScanFieldFixed(DigitsValue(h), r4);
    ScanFieldFixed(DigitsValue(mi), se);
    ScanFieldFixed(DigitsValue(se), []);
    assert se + [] == se;
    ParseOfScans(y + r1, DigitsValue(y), DigitsValue(mo), DigitsValue(da), DigitsValue(h), DigitsValue(mi),
                 DigitsValue(se), r1, r2, r3, r4, se);
  }

  lemma FormatDigitGroups(d: NaiveDateTime, y: string, mo: string, da: string, h: string, mi: string, se: string)
    requires |y| == 4 && |mo| == 2 && |da| == 2 && |h| == 2 && |mi| == 2 && |se| == 2
    requires AllDigits(y) && AllDigits(mo) && AllDigits(da) && AllDigits(h) && AllDigits(mi) && AllDigits(se)
    requires d == DateTime(DigitsValue(y), DigitsValue(mo), DigitsValue(da),
                           DigitsValue(h), DigitsValue(mi), DigitsValue(se))
    ensures ConvertDateToStringFormat(d) == y + (mo + (da + (h + (mi + se))))
  {
    FixedOfDigits(y);
    FixedOfDigits(mo);
    FixedOfDigits(da);
    FixedOfDigits(h);
    FixedOfDigits(mi);
    FixedOfDigits(se);
    FormatFourDigitYear(d);
  }

  lemma FixedTwoDigits()
    ensures Fixed(0, 2) == "00" && Fixed(1, 2) == "01"
  {
    assert Fixed(0, 1) == "0" by { assert Fixed(0, 0) == []; }
    assert Fixed(1, 2) == "01" by { assert 1 / 10 == 0 && 1 % 10 == 1; }
  }

  lemma FixedFourZeros()
    ensures Fixed(0, 4) == "0000"
  {
    FixedTwoDigits();
    assert Fixed(0, 3) == "000";
  }

  lemma NullDateText(t: string, y: string)
    requires y == "0000" && t == "01" + ("01" + ("00" + ("00" + "00")))
    ensures y + t == "00000101000000"
  {
  }

  /** The null date is written as fourteen digits and read back unchanged. */
  lemma NullDateRoundTrip()
    ensures ConvertDateToStringFormat(NullDate) == "00000101000000"
    ensures Parse("00000101000000") == Some(NullDate)
  {
    FixedTwoDigits();
    FixedFourZeros();
    FormatFourDigitYear(NullDate);
    NullDateText(FormatTail(NullDate), Fixed(0, 4));
    ParseFormatRoundTrip(NullDate);
  }
}
