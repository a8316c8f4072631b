/**
  The reading of a profile's `joinedDate` from the request body
  (routes/userProfileRoutes.js, POST `/`): the string is trimmed and read
  by the first of three readings that succeeds — the native `new Date`
  parse, day-month-year with `-` or `/`, and a digits-only epoch timestamp
  in seconds or milliseconds. A value none of them reads is dropped.
*/
module JoinedDate {
  import opened Wrappers
  import opened Calendar

  // ---------------------------------------------------------------------
  // String.prototype.trim
  // ---------------------------------------------------------------------

  /** ECMAScript white space and line terminators, the characters `trim` removes. */
  predicate IsJsSpace(c: char) {
    || c == ' ' || c == '\t' || c == '\n' || c == '\r' || c == '\U{000B}' || c == '\U{000C}'
    || c == '\U{00A0}' || c == '\U{1680}' || ('\U{2000}' <= c <= '\U{200A}')
    || c == '\U{2028}' || c == '\U{2029}' || c == '\U{202F}' || c == '\U{205F}' || c == '\U{3000}'
    || c == '\U{FEFF}'
  }

  predicate AllSpace(s: string) {
    forall i | 0 <= i < |s| :: IsJsSpace(s[i])
  }

  function TrimStart(s: string): (t: string)
    ensures |t| <= |s| && t == s[|s| - |t|..]
    ensures AllSpace(s[..|s| - |t|])
    ensures t == [] || !IsJsSpace(t[0])
  {
    if s != [] && IsJsSpace(s[0]) then
      var t := TrimStart(s[1..]);
      assert s[..|s| - |t|] == [s[0]] + s[1..][..|s[1..]| - |t|];
      t
    else s
  }

  function TrimEnd(s: string): (t: string)
    ensures |t| <= |s| && t == s[..|t|]
    ensures AllSpace(s[|t|..])
    ensures t == [] || !IsJsSpace(t[|t| - 1])
  {
    if s != [] && IsJsSpace(s[|s| - 1]) then
      var t := TrimEnd(s[..|s| - 1]);
      assert s[|t|..] == s[..|s| - 1][|t|..] + [s[|s| - 1]];
      t
    else s
  }

  /** `String(raw).trim()`. */
  function Trim(s: string): string {
    TrimEnd(TrimStart(s))
  }

  /** Trimming keeps a middle stretch of `s`: what it drops before and after is white space, and neither end of what it keeps is. */
  lemma TrimSpec(s: string)
    ensures |Trim(s)| <= |s| - |Leading(s)|
    ensures Trim(s) == s[|Leading(s)|..|Leading(s)| + |Trim(s)|]
    ensures AllSpace(Leading(s)) && AllSpace(s[|Leading(s)| + |Trim(s)|..])
    ensures Trim(s) == [] || (!IsJsSpace(Trim(s)[0]) && !IsJsSpace(Trim(s)[|Trim(s)| - 1]))
  {
    TrimIsSlice(s);
    TrimDropsSpace(s);
  }

  lemma TrimIsSlice(s: string)
    ensures |Trim(s)| <= |s| - |Leading(s)|
    ensures Trim(s) == s[|Leading(s)|..|Leading(s)| + |Trim(s)|]
    ensures Trim(s) == [] || Trim(s)[0] == TrimStart(s)[0]
  {
    var a := TrimStart(s);
    var t := TrimEnd(a);
    assert t == a[..|t|];
  }

  lemma TrimDropsSpace(s: string)
    ensures AllSpace(Leading(s)) && AllSpace(s[|Leading(s)| + |Trim(s)|..])
  {
    var a := TrimStart(s);
    var t := TrimEnd(a);
    var i := |s| - |a|;
    assert AllSpace(a[|t|..]);
    var rest, kept := s[i + |t|..], a[|t|..];
    forall j | 0 <= j < |rest|
      ensures IsJsSpace(rest[j])
    {
      assert rest[j] == kept[j];
    }
  }

  /** The white space `trim` drops from the front. */
  function Leading(s: string): string {
    s[..|s| - |TrimStart(s)|]
  }

  /** Trimming twice is trimming once. */
  lemma TrimIdempotent(s: string)
    ensures Trim(Trim(s)) == Trim(s)
  {
    TrimSpec(s);
  }

  // ---------------------------------------------------------------------
  // Digits
  // ---------------------------------------------------------------------

  /** `\d` of a JavaScript regular expression: an ASCII digit. */
  predicate IsDigit(c: char) {
    '0' <= c <= '9'
  }

  predicate AllDigits(s: string) {
    forall i | 0 <= i < |s| :: IsDigit(s[i])
  }

  /** `parseInt(s, 10)` of a string of digits. */
  function Value(s: string): nat
    requires AllDigits(s)
  {
    if s == [] then 0 else Value(s[..|s| - 1]) * 10 + (s[|s| - 1] as int - '0' as int)
  }

  function Digit(n: nat): (c: char)
    requires n < 10
    ensures IsDigit(c)
  {
    (n + '0' as int) as char
  }

  /** The decimal numeral of `n`, without leading zeros. */
  function Numeral(n: nat): (s: string)
    ensures AllDigits(s) && 1 <= |s|
    ensures |s| == 1 <==> n < 10
    ensures n < 100 ==> |s| <= 2
  {
    if n < 10 then [Digit(n)] else Numeral(n / 10) + [Digit(n % 10)]
  }

  /** Reading a numeral gives back its number. */
  lemma {:induction false} ValueOfNumeral(n: nat)
    ensures Value(Numeral(n)) == n
  {
    if n >= 10 {
      ValueOfNumeral(n / 10);
      var s := Numeral(n);
      assert s[..|s| - 1] == Numeral(n / 10);
    }
  }

  /** Leading zeros do not change the value read. */
  lemma {:induction false} ValueOfZeroPadded(k: nat, s: string)
    requires AllDigits(s)
    ensures AllDigits(Zeros(k) + s) && Value(Zeros(k) + s) == Value(s)
    decreases |s|
  {
    var t := Zeros(k) + s;
    if s == [] {
      assert t == Zeros(k);
      ZerosValue(k);
    } else {
      assert t[..|t| - 1] == Zeros(k) + s[..|s| - 1];
      ValueOfZeroPadded(k, s[..|s| - 1]);
    }
  }

  function Zeros(k: nat): (s: string)
    ensures |s| == k && AllDigits(s)
  {
    if k == 0 then [] else Zeros(k - 1) + ['0']
  }

  lemma {:induction false} ZerosValue(k: nat)
    ensures Value(Zeros(k)) == 0
  {
    if k > 0 {
      assert Zeros(k)[..k - 1] == Zeros(k - 1);
      ZerosValue(k - 1);
    }
  }

  /** The numeral of `n` padded with zeros to at least `width` digits. */
  function Padded(n: nat, width: nat): (s: string)
    ensures AllDigits(s) && Value(s) == n
    ensures n < 10000 && width == 4 ==> |s| == 4
  {
    var digits := Numeral(n);
    var pad := if |digits| < width then width - |digits| else 0;
    PaddedValue(n, pad);
    Zeros(pad) + digits
  }

  lemma PaddedValue(n: nat, pad: nat)
    ensures AllDigits(Zeros(pad) + Numeral(n)) && Value(Zeros(pad) + Numeral(n)) == n
    ensures n < 10000 ==> |Numeral(n)| <= 4
  {
    ValueOfNumeral(n);
    ValueOfZeroPadded(pad, Numeral(n));
    if n < 10000 {
      NumeralShort(n);
    }
  }

  lemma {:induction false} NumeralShort(n: nat)
    requires n < 10000
    ensures |Numeral(n)| <= 4
  {
    if n >= 10 {
      NumeralShort(n / 10);
      if n >= 1000 {
        assert n / 10 >= 100;
      }
      NumeralLength(n / 10);
    }
  }

  lemma {:induction false} NumeralLength(n: nat)
    requires n < 1000
    ensures |Numeral(n)| <= 3
  {
    if n >= 10 {
      assert n / 10 < 100;
    }
  }

  // ---------------------------------------------------------------------
  // /^(\d{1,2})[-\/](\d{1,2})[-\/](\d{4})$/
  // ---------------------------------------------------------------------

  predicate IsSeparator(c: char) {
    c == '-' || c == '/'
  }

  /** `s` is a day of `d` digits, a separator, a month of `m` digits, a separator and four year digits. */
  predicate SplitsAt(s: string, d: nat, m: nat) {
    && |s| == d + m + 6
    && AllDigits(s[..d]) && IsSeparator(s[d])
    && AllDigits(s[d + 1..d + 1 + m]) && IsSeparator(s[d + 1 + m])
    && AllDigits(s[d + 2 + m..])
  }

  /** The three captured numbers, as `parseInt` reads them. */
  datatype DayMonthYear = DayMonthYear(day: nat, month: nat, year: nat)

  function Groups(s: string, d: nat, m: nat): DayMonthYear
    requires SplitsAt(s, d, m)
  {
    DayMonthYear(Value(s[..d]), Value(s[d + 1..d + 1 + m]), Value(s[d + 2 + m..]))
  }

  /** A string matches the pattern in at most one way: the separators are not digits. */
  lemma SplitUnique(s: string, d1: nat, m1: nat, d2: nat, m2: nat)
    requires SplitsAt(s, d1, m1) && SplitsAt(s, d2, m2)
    ensures d1 == d2 && m1 == m2
  {
  }

  /** `raw.match(...)`: the captured day, month and year when the whole string matches. */
  function MatchDayMonthYear(s: string): (r: Option<DayMonthYear>)
    ensures r.Some? <==> exists d, m | 1 <= d <= 2 && 1 <= m <= 2 :: SplitsAt(s, d, m)
    ensures forall d, m | 1 <= d <= 2 && 1 <= m <= 2 && SplitsAt(s, d, m) :: r == Some(Groups(s, d, m))
  {
    var r :=
      if SplitsAt(s, 1, 1) then Some(Groups(s, 1, 1))
      else if SplitsAt(s, 1, 2) then Some(Groups(s, 1, 2))
      else if SplitsAt(s, 2, 1) then Some(Groups(s, 2, 1))
      else if SplitsAt(s, 2, 2) then Some(Groups(s, 2, 2))
      else None;
    forall d, m | 1 <= d <= 2 && 1 <= m <= 2 && SplitsAt(s, d, m) ensures r == Some(Groups(s, d, m)) {
      if SplitsAt(s, 1, 1) { SplitUnique(s, 1, 1, d, m); }
      else if SplitsAt(s, 1, 2) { SplitUnique(s, 1, 2, d, m); }
      else if SplitsAt(s, 2, 1) { SplitUnique(s, 2, 1, d, m); }
    }
    r
  }

  /** Two digit groups and a four-digit group joined by separators split where they were joined. */
  lemma SplitOfJoin(dd: string, mm: string, yy: string, sep1: char, sep2: char)
    requires AllDigits(dd) && AllDigits(mm) && AllDigits(yy) && |yy| == 4
    requires IsSeparator(sep1) && IsSeparator(sep2)
    ensures SplitsAt(dd + [sep1] + mm + [sep2] + yy, |dd|, |mm|)
    ensures Groups(dd + [sep1] + mm + [sep2] + yy, |dd|, |mm|) == DayMonthYear(Value(dd), Value(mm), Value(yy))
  {
    JoinSlices(dd, mm, yy, sep1, sep2);
  }

  lemma JoinSlices(dd: string, mm: string, yy: string, sep1: char, sep2: char)
    ensures var s := dd + [sep1] + mm + [sep2] + yy;
      && |s| == |dd| + |mm| + 2 + |yy|
      && s[..|dd|] == dd && s[|dd|] == sep1 && s[|dd| + 1..|dd| + 1 + |mm|] == mm
      && s[|dd| + 1 + |mm|] == sep2 && s[|dd| + 2 + |mm|..] == yy
  {
    var s := dd + [sep1] + mm + [sep2] + yy;
    var front, back := dd + [sep1], [sep2] + yy;
    assert s == front + mm + back;
    MiddleOfThree(front, mm, back);
    assert s[..|dd|] == dd;
    assert s[|dd| + 2 + |mm|..] == yy;
  }

  lemma MiddleOfThree(x: string, y: string, z: string)
    ensures (x + y + z)[|x|..|x| + |y|] == y
  {
  }

  /** A date written day-sep-month-sep-year (day and month without padding, the year in four digits) is read back. */
  lemma DayMonthYearRoundTrip(day: nat, month: nat, year: nat, sep1: char, sep2: char)
    requires 1 <= day < 100 && 1 <= month < 100 && year < 10000 && IsSeparator(sep1) && IsSeparator(sep2)
    ensures MatchDayMonthYear(Numeral(day) + [sep1] + Numeral(month) + [sep2] + Padded(year, 4))
         == Some(DayMonthYear(day, month, year))
  {
    ValueOfNumeral(day);
    ValueOfNumeral(month);
    SplitOfJoin(Numeral(day), Numeral(month), Padded(year, 4), sep1, sep2);
  }

  // ---------------------------------------------------------------------
  // The three readings
  // ---------------------------------------------------------------------

  /** `new Date(year, month, day)` with the captured groups, the month made zero-based. */
  function DayMonthYearReading(raw: string): (r: Option<Date>)
    ensures r.Some? ==> ValidDate(r.value) && r.value.time == Midnight
    ensures r.Some? <==> MatchDayMonthYear(raw).Some?
  {
    match MatchDayMonthYear(raw)
    case None => None
    case Some(g) => Some(LocalDate(g.year, g.month - 1, g.day))
  }

  /** The largest magnitude of a JavaScript time value; beyond it `new Date(ms)` is an Invalid Date. */
  const MAX_TIME_MILLIS: nat := 8_640_000_000_000_000

  /** The timestamp at which the reading switches from seconds to milliseconds. */
  const SECONDS_LIMIT: nat := 1_000_000_000_000

  /** `ts > 1e12 ? ts : ts * 1000`. */
  function EpochMillis(ts: nat): nat {
    if ts > SECONDS_LIMIT then ts else ts * 1000
  }

  const Epoch := Date(1970, 0, 1, Midnight)

  /** The time of day `ms` milliseconds after midnight. */
  function ClockOf(ms: nat): (c: Clock)
    requires ms < DayMillis
    ensures ValidClock(c) && ClockMillis(c) == ms
  {
    var seconds, millis := ms / 1000, ms % 1000;
    var minutes, second := seconds / 60, seconds % 60;
    var hour, minute := minutes / 60, minutes % 60;
    assert ms == seconds * 1000 + millis && seconds == minutes * 60 + second && minutes == hour * 60 + minute;
    Clock(hour, minute, second, millis)
  }

  /** `new Date(ms)` for a non-negative time value, on the calendar of the epoch's clock. */
  function FromEpochMillis(ms: nat): (r: Option<Date>)
    ensures r.Some? <==> ms <= MAX_TIME_MILLIS
    ensures r.Some? ==> ValidDate(r.value) && ClockMillis(r.value.time) == ms % DayMillis
    ensures r.Some? ==> DayNumber(r.value) == DayNumber(Epoch) + ms / DayMillis
  {
    if ms > MAX_TIME_MILLIS then None
    else Some(AddDays(Epoch, ms / DayMillis).(time := ClockOf(ms % DayMillis)))
  }

  /**
    The date `new Date(ms)` yields is the only valid date that many whole days
    after the epoch, at that many milliseconds into the day.
  */
  lemma FromEpochMillisUnique(ms: nat, e: Date)
    requires ms <= MAX_TIME_MILLIS && ValidDate(e)
    requires DayNumber(e) == DayNumber(Epoch) + ms / DayMillis && ClockMillis(e.time) == ms % DayMillis
    ensures FromEpochMillis(ms) == Some(e)
  {
    var r := FromEpochMillis(ms).value;
    DayNumberInjective(r, e);
    ClockMillisOrder(r.time, e.time);
  }

  /** `/^\d+$/.test(raw)`, then the timestamp reading. */
  function TimestampReading(raw: string): (r: Option<Date>)
    ensures r.Some? <==> raw != [] && AllDigits(raw) && EpochMillis(Value(raw)) <= MAX_TIME_MILLIS
    ensures r.Some? ==> ValidDate(r.value)
    ensures r.Some? ==> DayNumber(r.value) == DayNumber(Epoch) + EpochMillis(Value(raw)) / DayMillis
    ensures r.Some? ==> ClockMillis(r.value.time) == EpochMillis(Value(raw)) % DayMillis
  {
    if raw != [] && AllDigits(raw) then FromEpochMillis(EpochMillis(Value(raw))) else None
  }

  /** The day-month-year and timestamp readings never both apply: a match holds separators. */
  lemma ReadingsExclusive(raw: string)
    ensures !(DayMonthYearReading(raw).Some? && TimestampReading(raw).Some?)
  {
    if MatchDayMonthYear(raw).Some? {
      var d, m :| 1 <= d <= 2 && 1 <= m <= 2 && SplitsAt(raw, d, m);
      assert !IsDigit(raw[d]);
    }
  }

  /** Up to 10^12 a timestamp is read as seconds, above it as milliseconds. */
  lemma TimestampUnits(ts: nat)
    ensures ts <= SECONDS_LIMIT ==> EpochMillis(ts) == ts * 1000 && EpochMillis(ts) <= MAX_TIME_MILLIS
    ensures ts > SECONDS_LIMIT ==> EpochMillis(ts) == ts
    ensures ts > MAX_TIME_MILLIS ==> FromEpochMillis(EpochMillis(ts)).None?
  {
  }

  lemma Value86400()
    ensures Value("86400") == 86400
  {
    assert "86400"[..4] == "8640" && "8640"[..3] == "864" && "864"[..2] == "86" && "86"[..1] == "8";
  }

  lemma Value2024()
    ensures Value("2024") == 2024
  {
    assert "2024"[..3] == "202" && "202"[..2] == "20" && "20"[..1] == "2";
  }

  lemma Value0024()
    ensures Value("0024") == 24
  {
    assert "0024"[..3] == "002" && "002"[..2] == "00" && "00"[..1] == "0";
  }

  /** A day's worth of seconds, "86400", reads as midnight on the day after the epoch. */
  lemma TimestampExample()
    ensures TimestampReading("86400") == Some(Date(1970, 0, 2, Midnight))
  {
    Value86400();
    assert AllDigits("86400");
    assert EpochMillis(86400) == DayMillis;
    OneDayAfterEpoch();
  }

  /** `new Date(86400000)` is midnight of 2 January 1970. */
  lemma OneDayAfterEpoch()
    ensures FromEpochMillis(DayMillis) == Some(Date(1970, 0, 2, Midnight))
  {
    assert FromEpochMillis(DayMillis) == Some(AddDays(Epoch, 1).(time := ClockOf(0))) by {
    }
    DayAfterEpoch();
    MidnightClock();
  }

  lemma DayAfterEpoch()
    ensures AddDays(Epoch, 1) == Date(1970, 0, 2, Midnight)
  {
  }

  lemma MidnightClock()
    ensures ClockOf(0) == Midnight
  {
    ClockMillisOrder(ClockOf(0), Midnight);
  }

  /** A string that splits is read as the local midnight of its groups. */
  lemma ReadingOfSplit(s: string, d: nat, m: nat, g: DayMonthYear)
    requires 1 <= d <= 2 && 1 <= m <= 2 && SplitsAt(s, d, m) && Groups(s, d, m) == g
    ensures DayMonthYearReading(s) == Some(LocalDate(g.year, g.month - 1, g.day))
  {
  }

  /** "15/01/2024" reads as 15 January 2024. */
  lemma DayFirstExample()
    ensures DayMonthYearReading("15/01/2024") == Some(Date(2024, 0, 15, Midnight))
  {
    var s := "15/01/2024";
    assert s[6..] == "2024" && s[..2] == "15" && s[3..5] == "01";
    Value2024();
    assert Value("15") == 15 && Value("01") == 1;
    ReadingOfSplit(s, 2, 2, DayMonthYear(15, 1, 2024));
  }

  /** A year written "0024" is read as 1924, as `new Date(24, 0, 5)` is. */
  lemma TwoDigitYearExample()
    ensures DayMonthYearReading("5-1-0024") == Some(Date(1924, 0, 5, Midnight))
  {
    var s := "5-1-0024";
    assert s[4..] == "0024" && s[..1] == "5" && s[2..3] == "1";
    Value0024();
    ReadingOfSplit(s, 1, 1, DayMonthYear(5, 1, 24));
  }

  /** The ISO order year-month-day does not match the pattern. */
  lemma IsoOrderNotMatched()
    ensures DayMonthYearReading("2024-01-15") == None
  {
    assert !IsSeparator("2024-01-15"[1]) && !IsSeparator("2024-01-15"[2]);
  }

  /**
    The `if (data.joinedDate)` block of POST `/`: `given` is the body's
    value (None when absent or empty) and `native` what `new Date(raw)`
    yields for the trimmed string (None for an Invalid Date). `jd` is
    reassigned by each fallback in turn; None means the field is deleted.
  */
  method ParseJoinedDate(given: Option<string>, native: Option<Date>) returns (jd: Option<Date>)
    requires native.Some? ==> ValidDate(native.value)
    ensures given.None? || given.value == [] ==> jd == None
    ensures given.Some? && given.value != [] ==>
              var raw := Trim(given.value);
              jd == if native.Some? then native
                    else if DayMonthYearReading(raw).Some? then DayMonthYearReading(raw)
                    else TimestampReading(raw)
    ensures jd.Some? ==> ValidDate(jd.value)
  {
    if given.None? || given.value == [] {
      return None;
    }
    var raw := Trim(given.value);
    jd := native;
    if jd.None? {
      var m := MatchDayMonthYear(raw);
      if m.Some? {
        jd := Some(LocalDate(m.value.year, m.value.month - 1, m.value.day));
      }
    }
    if jd.None? && raw != [] && AllDigits(raw) {
      var ts := Value(raw);
      var ms := if ts > SECONDS_LIMIT then ts else ts * 1000;
      jd := FromEpochMillis(ms);
    }
  }
}
