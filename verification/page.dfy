/** The pure helpers of the home page (app/page.tsx): the parser of the
    station's `YYYY-MM-DD HH:MM` Korean-time stamp into epoch milliseconds,
    the freshness badge computed from it and the current time, the chips
    that name the decision signals, and the profile badge. `Date.now()` is a
    parameter. */
module HomePage {
  import opened JsValue
  import opened JsString
  import opened Decision
  import CharacterUtils

  // ------------------------------------------------------- Date.UTC model

  /** `DayFromYear` of ECMAScript: the day number of 1 January of `y`. The
      divisions are floors, which `/` is for a positive divisor. */
  function DayFromYear(y: int): int
  {
    365 * (y - 1970) + (y - 1969) / 4 - (y - 1901) / 100 + (y - 1601) / 400
  }

  predicate IsLeap(y: int)
  {
    y % 4 == 0 && (y % 100 != 0 || y % 400 == 0)
  }

  /** Days of the year before month `mn`, January being 0. */
  function MonthStart(mn: int, leap: bool): int
    requires 0 <= mn < 12
  {
    [0, 31, 59, 90, 120, 151, 181, 212, 243, 273, 304, 334][mn] + (if leap && mn >= 2 then 1 else 0)
  }

  /** `MakeDay(year, month, date)` for integral arguments: a month past
      December or before January moves into a neighbouring year. */
  function MakeDay(year: int, month: int, date: int): int
  {
    var ym := year + month / 12;
    DayFromYear(ym) + MonthStart(month % 12, IsLeap(ym)) + date - 1
  }

  /** `TimeClip`: a time more than 8.64e15 ms from the epoch is NaN (`None`). */
  function TimeClip(t: int): Option<int>
  {
    if -8_640_000_000_000_000 <= t <= 8_640_000_000_000_000 then Some(t) else None
  }

  /** The year `Date.UTC` uses: 0 to 99 stand for 1900 to 1999. */
  function FullYear(year: int): int
  {
    if 0 <= year <= 99 then 1900 + year else year
  }

  /** `Date.UTC(year, month, date, hours, minutes)` for integral arguments;
      `None` is NaN. A day is 86400000 ms, an hour 3600000, a minute 60000. */
  function DateUtc(year: int, month: int, date: int, hours: int, minutes: int): Option<int>
  {
    TimeClip(MakeDay(FullYear(year), month, date) * 86_400_000 + hours * 3_600_000 + minutes * 60_000)
  }

  lemma DateUtcValue(year: int, month: int, date: int, hours: int, minutes: int)
    requires DateUtc(year, month, date, hours, minutes).Some?
    ensures DateUtc(year, month, date, hours, minutes).value
      == MakeDay(FullYear(year), month, date) * 86_400_000 + hours * 3_600_000 + minutes * 60_000
  {
  }

  // ------------------------------------------------- reference calendar

  function YearLength(y: int): int
  {
    if IsLeap(y) then 366 else 365
  }

  /** Days from 1 January 1970 to 1 January of `y`, counted year by year. */
  function DaysToYear(y: int): int
    decreases if y >= 1970 then y - 1970 else 1970 - y
  {
    if y == 1970 then 0
    else if y > 1970 then DaysToYear(y - 1) + YearLength(y - 1)
    else DaysToYear(y + 1) - YearLength(y)
  }

  function DaysInMonth(y: int, mo: int): int
    requires 1 <= mo <= 12
  {
    if mo == 2 then (if IsLeap(y) then 29 else 28)
    else if mo == 4 || mo == 6 || mo == 9 || mo == 11 then 30
    else 31
  }

  /** Days of year `y` before month `mo` (1 to 12), counted month by month. */
  function DaysBeforeMonth(y: int, mo: int): int
    requires 1 <= mo <= 12
  {
    if mo == 1 then 0 else DaysBeforeMonth(y, mo - 1) + DaysInMonth(y, mo - 1)
  }

  /** The three floors of `DayFromYear` each step up exactly at a multiple
      of their divisor. */
  lemma QuadrennialStep(y: int)
    ensures (y + 1 - 1969) / 4 == (y - 1969) / 4 + (if y % 4 == 0 then 1 else 0)
  {
  }

  lemma CenturyStep(y: int)
    ensures (y + 1 - 1901) / 100 == (y - 1901) / 100 + (if y % 100 == 0 then 1 else 0)
  {
  }

  lemma QuadricentennialStep(y: int)
    ensures (y + 1 - 1601) / 400 == (y - 1601) / 400 + (if y % 400 == 0 then 1 else 0)
  {
  }

  /** A multiple of 400 is one of 100, and a multiple of 100 one of 4. */
  lemma DivisorsNest(y: int)
    ensures y % 400 == 0 ==> y % 100 == 0
    ensures y % 100 == 0 ==> y % 4 == 0
  {
  }

  /** The closed formula moves by one year length from one year to the next. */
  lemma DayFromYearStep(y: int)
    ensures DayFromYear(y + 1) == DayFromYear(y) + YearLength(y)
  {
    var leaps := (if y % 4 == 0 then 1 else 0) - (if y % 100 == 0 then 1 else 0) + (if y % 400 == 0 then 1 else 0);
    assert DayFromYear(y + 1) == DayFromYear(y) + 365 + leaps by {
      QuadrennialStep(y);
      CenturyStep(y);
      QuadricentennialStep(y);
    }
    assert YearLength(y) == 365 + leaps by {
      DivisorsNest(y);
    }
  }

  /** The closed formula counts the days of the years in between. */
  lemma {:induction false} DayFromYearCounts(y: int)
    ensures DayFromYear(y) == DaysToYear(y)
    decreases if y >= 1970 then y - 1970 else 1970 - y
  {
    if y > 1970 {
      DayFromYearCounts(y - 1);
      DayFromYearStep(y - 1);
    } else if y < 1970 {
      DayFromYearCounts(y + 1);
      DayFromYearStep(y);
    }
  }

  /** The month table agrees with counting the months' lengths. */
  lemma MonthStartCounts(y: int, mo: int)
    requires 1 <= mo <= 12
    ensures MonthStart(mo - 1, IsLeap(y)) == DaysBeforeMonth(y, mo)
  {
  }

  /** Within a year, `MakeDay` is the calendar's day number. */
  lemma MakeDayCounts(y: int, mo: int, d: int)
    requires 1 <= mo <= 12
    ensures MakeDay(y, mo - 1, d) == DaysToYear(y) + DaysBeforeMonth(y, mo) + d - 1
  {
    assert (mo - 1) / 12 == 0 && (mo - 1) % 12 == mo - 1;
    DayFromYearCounts(y);
    MonthStartCounts(y, mo);
  }

  /** In range, `Date.UTC` is the day number in milliseconds plus the time of day. */
  lemma DateUtcInRange(year: int, month: int, date: int, hours: int, minutes: int)
    requires 100 <= year <= 9999 && -1 <= month <= 98 && 0 <= date <= 99
    requires -9 <= hours <= 90 && 0 <= minutes <= 99
    ensures DateUtc(year, month, date, hours, minutes)
      == Some(MakeDay(year, month, date) * 86_400_000 + hours * 3_600_000 + minutes * 60_000)
  {
    DateUtcDefined(year, month, date, hours, minutes);
    DateUtcValue(year, month, date, hours, minutes);
  }

  /** The reference reading of a Korean-time stamp: days since 1 January 1970
      counted on the calendar, plus the time of day, less the nine hours by
      which Korean time is ahead of UTC. */
  function CalendarKstEpoch(y: int, mo: int, d: int, h: int, mi: int): int
    requires 1 <= mo <= 12
  {
    (DaysToYear(y) + DaysBeforeMonth(y, mo) + d - 1) * 86_400_000 + (h - 9) * 3_600_000 + mi * 60_000
  }

  /** For a month of a year from 100 on, `Date.UTC` counts the calendar's days. */
  lemma DateUtcCounts(y: int, mo: int, d: int, h: int, mi: int)
    requires 100 <= y <= 9999 && 1 <= mo <= 12 && 0 <= d <= 99
    requires 0 <= h <= 99 && 0 <= mi <= 99
    ensures DateUtc(y, mo - 1, d, h - 9, mi) == Some(CalendarKstEpoch(y, mo, d, h, mi))
  {
    DateUtcInRange(y, mo - 1, d, h - 9, mi);
    MakeDayCounts(y, mo, d);
  }

  /** `Date.UTC` reads a year below 100 as the same year of the 1900s. */
  lemma DateUtcTwoDigitYear(year: int, month: int, date: int, hours: int, minutes: int)
    requires 0 <= year < 100
    ensures DateUtc(year, month, date, hours, minutes) == DateUtc(1900 + year, month, date, hours, minutes)
  {
    assert FullYear(year) == FullYear(1900 + year);
  }

  /** One more minute is 60000 ms more. */
  lemma DateUtcMinuteStep(year: int, month: int, date: int, hours: int, minutes: int)
    requires 0 <= year <= 9999 && -1 <= month <= 98 && 0 <= date <= 99
    requires -9 <= hours <= 90 && 0 <= minutes < 99
    ensures DateUtc(year, month, date, hours, minutes).Some? && DateUtc(year, month, date, hours, minutes + 1).Some?
    ensures DateUtc(year, month, date, hours, minutes + 1).value == DateUtc(year, month, date, hours, minutes).value + 60_000
  {
    DateUtcDefined(year, month, date, hours, minutes);
    DateUtcDefined(year, month, date, hours, minutes + 1);
    DateUtcValue(year, month, date, hours, minutes);
    DateUtcValue(year, month, date, hours, minutes + 1);
  }

  /** Every field value of at most four and two digits lies far inside the
      time range, so `Date.UTC` never gives NaN for them. */
  lemma DateUtcDefined(year: int, month: int, date: int, hours: int, minutes: int)
    requires 0 <= year <= 9999 && -1 <= month <= 98 && 0 <= date <= 99
    requires -9 <= hours <= 90 && 0 <= minutes <= 99
    ensures DateUtc(year, month, date, hours, minutes).Some?
  {
    var ym := FullYear(year) + month / 12;
    assert 98 <= ym <= 10008;
    assert -800_000 <= DayFromYear(ym) <= 3_000_000;
  }

  // ------------------------------------------------------------- parsing

  /** The whole string matches `^(\d{4})-(\d{2})-(\d{2})\s+(\d{2}):(\d{2})$`:
      the time is the last five characters, the white space run the rest. */
  predicate MatchesKst(s: string)
  {
    && |s| >= 16
    && AllDigits(s[0..4]) && s[4] == '-' && AllDigits(s[5..7]) && s[7] == '-' && AllDigits(s[8..10])
    && AllWs(s[10..|s| - 5])
    && AllDigits(s[|s| - 5..|s| - 3]) && s[|s| - 3] == ':' && AllDigits(s[|s| - 2..])
  }

  /** A run of `n` digits stands for less than `10^n`. */
  lemma {:induction false} DigitsValueBound(s: string)
    requires AllDigits(s)
    ensures DigitsValue(s) < Pow10(|s|)
  {
    if s != [] {
      DigitsValueBound(s[..|s| - 1]);
    }
  }

  /** The fields of a matching stamp have at most four and two digits. */
  lemma KstFieldBounds(s: string)
    requires MatchesKst(s)
    ensures DigitsValue(s[0..4]) < 10000 && DigitsValue(s[5..7]) < 100 && DigitsValue(s[8..10]) < 100
    ensures DigitsValue(s[|s| - 5..|s| - 3]) < 100 && DigitsValue(s[|s| - 2..]) < 100
  {
    DigitsValueBound(s[0..4]);
    DigitsValueBound(s[5..7]);
    DigitsValueBound(s[8..10]);
    DigitsValueBound(s[|s| - 5..|s| - 3]);
    DigitsValueBound(s[|s| - 2..]);
  }

  /** The epoch milliseconds of the stamp's fields read as Korean time,
      which is UTC+9 all year: the hour goes to `Date.UTC` less nine. */
  function KstFieldsToEpoch(s: string): Option<int>
    requires MatchesKst(s)
  {
    DateUtc(DigitsValue(s[0..4]), DigitsValue(s[5..7]) - 1, DigitsValue(s[8..10]),
      DigitsValue(s[|s| - 5..|s| - 3]) - 9, DigitsValue(s[|s| - 2..]))
  }

  /** `parseKstDataTimeToEpoch`: a missing, empty or ill-shaped stamp is
      `None`, and so would be a NaN time, which no stamp of this shape gives. */
  function ParseKstDataTimeToEpoch(raw: Option<string>): (r: Option<int>)
    ensures r.Some? <==> StrTruthy(raw) && MatchesKst(raw.value)
  {
    if !StrTruthy(raw) || !MatchesKst(raw.value) then None
    else
      var s := raw.value;
      KstFieldBounds(s);
      DateUtcDefined(DigitsValue(s[0..4]), DigitsValue(s[5..7]) - 1, DigitsValue(s[8..10]),
        DigitsValue(s[|s| - 5..|s| - 3]) - 9, DigitsValue(s[|s| - 2..]));
      var t := KstFieldsToEpoch(s);
      if t.None? then None else t
  }

  // ---------------------------------------------------------- formatting

  function Pow10(n: nat): nat
  {
    if n == 0 then 1 else 10 * Pow10(n - 1)
  }

  function DigitChar(d: int): (c: char)
    requires 0 <= d < 10
    ensures IsDigit(c) && c as int - '0' as int == d
  {
    ('0' as int + d) as char
  }

  /** `n` written with exactly `width` digits, zeros in front. */
  function PadDigits(n: nat, width: nat): (r: string)
    requires n < Pow10(width)
    ensures |r| == width && AllDigits(r) && DigitsValue(r) == n
  {
    if width == 0 then []
    else
      var r := PadDigits(n / 10, width - 1) + [DigitChar(n % 10)];
      assert r[..|r| - 1] == PadDigits(n / 10, width - 1);
      r
  }

  /** A stamp in the station's format, with one space before the time. */
  function FormatKst(y: nat, mo: nat, d: nat, h: nat, mi: nat): (s: string)
    requires y < 10000 && mo < 100 && d < 100 && h < 100 && mi < 100
    ensures |s| == 16
  {
    PadDigits(y, 4) + "-" + PadDigits(mo, 2) + "-" + PadDigits(d, 2) + " " + PadDigits(h, 2) + ":" + PadDigits(mi, 2)
  }

  /** A formatted stamp matches, and its fields read back as written. */
  lemma FormatKstFields(y: nat, mo: nat, d: nat, h: nat, mi: nat)
    requires y < 10000 && mo < 100 && d < 100 && h < 100 && mi < 100
    ensures var s := FormatKst(y, mo, d, h, mi);
      && MatchesKst(s)
      && DigitsValue(s[0..4]) == y && DigitsValue(s[5..7]) == mo && DigitsValue(s[8..10]) == d
      && DigitsValue(s[|s| - 5..|s| - 3]) == h && DigitsValue(s[|s| - 2..]) == mi
  {
    var s := FormatKst(y, mo, d, h, mi);
    assert s[0..4] == PadDigits(y, 4);
    assert s[5..7] == PadDigits(mo, 2);
    assert s[8..10] == PadDigits(d, 2);
    assert s[10..11] == " ";
    assert s[11..13] == PadDigits(h, 2);
    assert s[14..] == PadDigits(mi, 2);
  }

  /** A matching stamp parses to its fields' time. */
  lemma ParseMatching(s: string)
    requires MatchesKst(s)
    ensures ParseKstDataTimeToEpoch(Some(s)) == KstFieldsToEpoch(s)
  {
  }

  /** A formatted stamp parses to the fields' `Date.UTC` time, nine hours back. */
  lemma ParseFormatted(y: nat, mo: nat, d: nat, h: nat, mi: nat)
    requires y < 10000 && mo < 100 && d < 100 && h < 100 && mi < 100
    ensures ParseKstDataTimeToEpoch(Some(FormatKst(y, mo, d, h, mi))) == DateUtc(y, mo - 1, d, h - 9, mi)
    ensures DateUtc(y, mo - 1, d, h - 9, mi).Some?
  {
    FormatKstFields(y, mo, d, h, mi);
    ParseMatching(FormatKst(y, mo, d, h, mi));
    DateUtcDefined(y, mo - 1, d, h - 9, mi);
  }

  /** For a stamp naming a month of a year from 100 on, the result is the
      calendar's count of days since 1 January 1970 in milliseconds, plus the
      time of day, minus the nine hours of Korean time. */
  lemma ParseCountsCalendar(y: nat, mo: nat, d: nat, h: nat, mi: nat)
    requires 100 <= y < 10000 && 1 <= mo <= 12 && d < 100 && h < 100 && mi < 100
    ensures ParseKstDataTimeToEpoch(Some(FormatKst(y, mo, d, h, mi))) == Some(CalendarKstEpoch(y, mo, d, h, mi))
  {
    DateUtcCounts(y, mo, d, h, mi);
    ParseFormatted(y, mo, d, h, mi);
  }

  /** A two-digit year is read in the twentieth century: `0024` is 1924. */
  lemma ParseTwoDigitYear(y: nat, mo: nat, d: nat, h: nat, mi: nat)
    requires y < 100 && mo < 100 && d < 100 && h < 100 && mi < 100
    ensures ParseKstDataTimeToEpoch(Some(FormatKst(y, mo, d, h, mi)))
      == ParseKstDataTimeToEpoch(Some(FormatKst(1900 + y, mo, d, h, mi)))
  {
    calc {
      ParseKstDataTimeToEpoch(Some(FormatKst(y, mo, d, h, mi)));
      == { ParseFormatted(y, mo, d, h, mi); }
      DateUtc(y, mo - 1, d, h - 9, mi);
      == { DateUtcTwoDigitYear(y, mo - 1, d, h - 9, mi); }
      DateUtc(1900 + y, mo - 1, d, h - 9, mi);
      == { ParseFormatted(1900 + y, mo, d, h, mi); }
      ParseKstDataTimeToEpoch(Some(FormatKst(1900 + y, mo, d, h, mi)));
    }
  }

  /** One more minute in the stamp is 60000 ms more, whatever the other fields. */
  lemma ParseMinuteStep(y: nat, mo: nat, d: nat, h: nat, mi: nat)
    requires y < 10000 && mo < 100 && d < 100 && h < 100 && mi + 1 < 100
    ensures ParseKstDataTimeToEpoch(Some(FormatKst(y, mo, d, h, mi))).Some?
    ensures ParseKstDataTimeToEpoch(Some(FormatKst(y, mo, d, h, mi + 1))).Some?
    ensures ParseKstDataTimeToEpoch(Some(FormatKst(y, mo, d, h, mi + 1))).value
      == ParseKstDataTimeToEpoch(Some(FormatKst(y, mo, d, h, mi))).value + 60_000
  {
    assert ParseKstDataTimeToEpoch(Some(FormatKst(y, mo, d, h, mi))) == DateUtc(y, mo - 1, d, h - 9, mi) by {
      ParseFormatted(y, mo, d, h, mi);
    }
    assert ParseKstDataTimeToEpoch(Some(FormatKst(y, mo, d, h, mi + 1))) == DateUtc(y, mo - 1, d, h - 9, mi + 1) by {
      ParseFormatted(y, mo, d, h, mi + 1);
    }
    DateUtcMinuteStep(y, mo - 1, d, h - 9, mi);
  }

  /** The stamp `1970-01-01 09:00`, nine o'clock Korean time on 1 January
      1970, is the epoch itself. */
  lemma EpochStamp()
    ensures ParseKstDataTimeToEpoch(Some(FormatKst(1970, 1, 1, 9, 0))) == Some(0)
  {
    ParseCountsCalendar(1970, 1, 1, 9, 0);
    assert CalendarKstEpoch(1970, 1, 1, 9, 0) == 0;
  }

  // ----------------------------------------------------------- freshness

  datatype FreshnessStatus = UNKNOWN | FRESH | DELAYED | STALE

  datatype FreshnessMeta = FreshnessMeta(
    status: FreshnessStatus,
    ageMinutes: Option<nat>,
    description: Option<string>,
    needsRefresh: bool)

  const DelayedMinutes: nat := 60
  const StaleMinutes: nat := 90

  /** `n` in decimal, as `${n}` writes it: no leading zero. */
  function DecimalString(n: nat): (r: string)
    ensures |r| >= 1 && AllDigits(r) && DigitsValue(r) == n
    ensures |r| > 1 ==> r[0] != '0'
  {
    if n < 10 then [DigitChar(n)]
    else
      var r := DecimalString(n / 10) + [DigitChar(n % 10)];
      assert r[..|r| - 1] == DecimalString(n / 10);
      r
  }

  /** `Math.max(0, Math.floor((now - measured) / 60000))`: whole minutes
      since the measurement, zero for a measurement in the future. */
  function AgeMinutes(now: int, measured: int): (a: nat)
    ensures now >= measured ==> a * 60_000 <= now - measured < (a + 1) * 60_000
    ensures now - measured < 60_000 ==> a == 0
  {
    var q := (now - measured) / 60_000;
    if q < 0 then 0 else q
  }

  const AgePrefix: string := "측정 시각 기준 "

  function StaleDescription(age: nat): string
  {
    AgePrefix + DecimalString(age) + "분 경과로 최신값 자동 재조회가 필요해요."
  }

  function DelayedDescription(age: nat): string
  {
    AgePrefix + DecimalString(age) + "분 경과로 데이터가 지연됐을 수 있어요."
  }

  /** The `freshnessMeta` memo: an unparsable stamp, or one that parses to the
      epoch itself (a falsy 0), is UNKNOWN; otherwise the age in whole
      minutes picks STALE from 90, DELAYED from 60 and FRESH below. */
  function Freshness(dataTime: Option<string>, now: int): (f: FreshnessMeta)
    ensures f.status == UNKNOWN <==> ParseKstDataTimeToEpoch(dataTime).None? || ParseKstDataTimeToEpoch(dataTime) == Some(0)
    ensures f.status == UNKNOWN <==> f.ageMinutes.None?
    ensures f.needsRefresh <==> f.status == DELAYED || f.status == STALE
    ensures f.description.Some? <==> f.needsRefresh
    ensures f.description.Some? ==> StartsWith(f.description.value, AgePrefix + DecimalString(f.ageMinutes.value))
  {
    var measured := ParseKstDataTimeToEpoch(dataTime);
    if measured.None? || measured.value == 0 then FreshnessMeta(UNKNOWN, None, None, false)
    else
      var age := AgeMinutes(now, measured.value);
      if age >= StaleMinutes then FreshnessMeta(STALE, Some(age), Some(StaleDescription(age)), true)
      else if age >= DelayedMinutes then FreshnessMeta(DELAYED, Some(age), Some(DelayedDescription(age)), true)
      else FreshnessMeta(FRESH, Some(age), None, false)
  }

  /** The bands in milliseconds since the measurement, without the rounding. */
  lemma FreshnessBands(dataTime: Option<string>, now: int, measured: int)
    requires ParseKstDataTimeToEpoch(dataTime) == Some(measured) && measured != 0
    ensures Freshness(dataTime, now).status == STALE <==> now - measured >= 90 * 60_000
    ensures Freshness(dataTime, now).status == DELAYED <==> 60 * 60_000 <= now - measured < 90 * 60_000
    ensures Freshness(dataTime, now).status == FRESH <==> now - measured < 60 * 60_000
    ensures Freshness(dataTime, now).ageMinutes == Some(AgeMinutes(now, measured))
  {
  }

  function StatusRank(s: FreshnessStatus): int
  {
    match s
    case UNKNOWN => 0
    case FRESH => 1
    case DELAYED => 2
    case STALE => 3
  }

  /** As time passes a known stamp only ages: the status never improves, and
      an unknown one stays unknown. */
  lemma FreshnessMonotone(dataTime: Option<string>, now1: int, now2: int)
    requires now1 <= now2
    ensures Freshness(dataTime, now1).status == UNKNOWN <==> Freshness(dataTime, now2).status == UNKNOWN
    ensures StatusRank(Freshness(dataTime, now1).status) <= StatusRank(Freshness(dataTime, now2).status)
  {
  }

  /** A reading stamped `1970-01-01 09:00` is shown as of unknown age and never
      asks for a refresh, because its time is 0. */
  lemma EpochStampIsUnknown(now: int)
    ensures Freshness(Some(FormatKst(1970, 1, 1, 9, 0)), now).status == UNKNOWN
    ensures !Freshness(Some(FormatKst(1970, 1, 1, 9, 0)), now).needsRefresh
  {
    EpochStamp();
  }

  // --------------------------------------------------------------- chips

  const OzoneChip: string := "오존 시간대 규칙 적용"
  const InfantChip: string := "영아 마스크 금지 적용"
  const WeatherChip: string := "질환/온습도 보정 적용"
  const FinalChipPrefix: string := "최종 위험도 "

  function FinalGradeText(g: UiGrade): string
  {
    match g
    case GOOD => "좋음"
    case NORMAL => "보통"
    case BAD => "나쁨"
    case VERY_BAD => "매우나쁨"
  }

  function FinalChip(g: UiGrade): string
  {
    FinalChipPrefix + FinalGradeText(g)
  }

  /** Where a chip stands in the fixed order: ozone, infant, weather, grade. */
  function ChipPosition(c: string): int
  {
    if c == OzoneChip then 0
    else if c == InfantChip then 1
    else if c == WeatherChip then 2
    else 3
  }

  function Flag(b: bool, chip: string): seq<string>
  {
    if b then [chip] else []
  }

  /** The `decisionSignalChips` memo: no chips without signals; otherwise one
      chip per applied rule, in the fixed order, and the final grade last
      (the final grade is always set, so its chip is always there). */
  function DecisionSignalChips(signals: Option<DecisionSignals>): (chips: seq<string>)
    ensures signals.None? ==> chips == []
    ensures signals.Some? ==>
      && (OzoneChip in chips <==> signals.value.o3OutingBanForced)
      && (InfantChip in chips <==> signals.value.infantMaskBanApplied)
      && (WeatherChip in chips <==> signals.value.weatherAdjusted)
      && chips != [] && chips[|chips| - 1] == FinalChip(signals.value.finalGrade)
    ensures forall i, j :: 0 <= i < j < |chips| ==> ChipPosition(chips[i]) < ChipPosition(chips[j])
  {
    match signals
    case None => []
    case Some(s) =>
      Flag(s.o3OutingBanForced, OzoneChip) + Flag(s.infantMaskBanApplied, InfantChip)
      + Flag(s.weatherAdjusted, WeatherChip) + [FinalChip(s.finalGrade)]
  }

  /** The chips tell the three rule flags and the final grade back. */
  lemma ChipsDetermineSignals(a: DecisionSignals, b: DecisionSignals)
    ensures DecisionSignalChips(Some(a)) == DecisionSignalChips(Some(b))
        <==> && a.o3OutingBanForced == b.o3OutingBanForced
             && a.infantMaskBanApplied == b.infantMaskBanApplied
             && a.weatherAdjusted == b.weatherAdjusted
             && a.finalGrade == b.finalGrade
  {
    var ca := DecisionSignalChips(Some(a));
    var cb := DecisionSignalChips(Some(b));
    if ca == cb {
      assert FinalChip(a.finalGrade) == FinalChip(b.finalGrade);
      assert FinalChip(a.finalGrade)[|FinalChipPrefix|..] == FinalGradeText(a.finalGrade);
      assert FinalChip(b.finalGrade)[|FinalChipPrefix|..] == FinalGradeText(b.finalGrade);
    }
  }

  // --------------------------------------------------------------- badge

  /** The profile badge: the four younger groups by name, anything else,
      a missing profile included, as a teenager or adult. */
  function ProfileBadge(ageGroup: Option<string>): (b: string)
    ensures b == "👶 영아(0~2세)" <==> ageGroup == Some("infant")
    ensures b == "🧒 유아(3~6세)" <==> ageGroup == Some("toddler")
    ensures b == "🎒 초등 저학년" <==> ageGroup == Some("elementary_low")
    ensures b == "🏫 초등 고학년" <==> ageGroup == Some("elementary_high")
  {
    if ageGroup == Some("infant") then "👶 영아(0~2세)"
    else if ageGroup == Some("toddler") then "🧒 유아(3~6세)"
    else if ageGroup == Some("elementary_low") then "🎒 초등 저학년"
    else if ageGroup == Some("elementary_high") then "🏫 초등 고학년"
    else "🧑 청소년/성인"
  }

  /** The badge for each character age digit. */
  function BadgeOfAgeCode(c: char): string
  {
    match c
    case '1' => "👶 영아(0~2세)"
    case '2' => "🧒 유아(3~6세)"
    case '3' => "🎒 초등 저학년"
    case '4' => "🏫 초등 고학년"
    case _ => "🧑 청소년/성인"
  }

  /** The badge and the character picture classify age groups alike. */
  lemma BadgeAgreesWithCharacter(ageGroup: Option<string>)
    ensures ProfileBadge(ageGroup) == BadgeOfAgeCode(CharacterUtils.AgeCode(ageGroup))
  {
  }
}
