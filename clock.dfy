/**
 * Times of day, signed durations, offset date-times and calendar dates as the
 * `time` and `chrono` crates present them, reduced to whole seconds.
 */
module Clock {

  const MINUTE: int := 60
  const HOUR: int := 60 * MINUTE
  const DAY: int := 24 * HOUR

  /** A wall-clock time of day (`time::Time`, `chrono::NaiveTime`): seconds since midnight. */
  type Time = t: int | 0 <= t < DAY

  /** The time `h:m:00`; `Time::from_hms` accepts exactly the hours below 24 and minutes below 60. */
  function FromHm(h: nat, m: nat): (t: Time)
    requires h < 24 && m < 60
    ensures t / HOUR == h && (t % HOUR) / MINUTE == m && t % MINUTE == 0
  {
    h * HOUR + m * MINUTE
  }

  /** `duration / 2` on a signed duration: integer division truncating toward zero. */
  function Half(d: int): (r: int)
    ensures d >= 0 ==> 0 <= r && 2 * r <= d <= 2 * r + 1
    ensures d < 0 ==> r <= 0 && 2 * r - 1 <= d <= 2 * r
  {
    if d >= 0 then d / 2 else -((-d) / 2)
  }

  /** `Duration::whole_minutes` / `num_minutes`: whole minutes, truncating toward zero. */
  function WholeMinutes(d: int): (r: int)
    ensures d >= 0 ==> 0 <= r && r * MINUTE <= d < (r + 1) * MINUTE
    ensures d < 0 ==> r <= 0 && (r - 1) * MINUTE < d <= r * MINUTE
  {
    if d >= 0 then d / MINUTE else -((-d) / MINUTE)
  }

  /** `Time + Duration`: the `time` crate wraps around midnight. */
  function AddToTime(t: Time, d: int): (r: Time)
    ensures 0 <= t + d < DAY ==> r == t + d
  {
    (t + d) % DAY
  }

  /** `Time - Duration`, wrapping around midnight like `AddToTime`. */
  function SubFromTime(t: Time, d: int): (r: Time)
    ensures 0 <= t - d < DAY ==> r == t - d
  {
    (t - d) % DAY
  }

  /** The distance between two whole-minute instants is itself whole minutes. */
  lemma WholeMinutesApart(a: int, b: int)
    requires a % MINUTE == 0 && b % MINUTE == 0
    ensures (a - b) % MINUTE == 0
  {
    var k := a / MINUTE - b / MINUTE;
    assert a - b == MINUTE * k;
  }

  /** Halving a whole-minute duration loses nothing, so the truncation in `Half` never shows for parsed input. */
  lemma HalfOfWholeMinutes(d: int)
    requires d % MINUTE == 0
    ensures 2 * Half(d) == d
  {
  }

  /**
   * An instant with the UTC offset it is shown in (`OffsetDateTime`,
   * `DateTime<FixedOffset>`): seconds since the Unix epoch in UTC, and the
   * offset in seconds east of UTC.
   */
  datatype OffsetDateTime = OffsetDateTime(utc: int, offset: int) {
    /** Seconds since the epoch on the local wall clock. */
    function Local(): int { utc + offset }
  }

  /** `PrimitiveDateTime::assume_offset`: the instant whose local wall-clock reading is `local`. */
  function AssumeOffset(local: int, offset: int): (t: OffsetDateTime)
    ensures t.Local() == local && t.offset == offset
  {
    OffsetDateTime(local - offset, offset)
  }

  /** `instant + duration` keeps the offset. */
  function Later(t: OffsetDateTime, d: int): (r: OffsetDateTime)
    ensures r.utc - t.utc == d && r.offset == t.offset
  {
    OffsetDateTime(t.utc + d, t.offset)
  }

  /** `a - b` between two instants: the elapsed seconds, whatever the offsets. */
  function Elapsed(a: OffsetDateTime, b: OffsetDateTime): int {
    a.utc - b.utc
  }

  /** A calendar date (`time::Date`, `chrono::NaiveDate`): days since 1970-01-01. */
  type Date = int

  datatype Weekday = Monday | Tuesday | Wednesday | Thursday | Friday | Saturday | Sunday

  /** The day of the week; 1970-01-01 was a Thursday. */
  function WeekdayOf(d: Date): Weekday {
    var k := (d + 3) % 7;
    if k == 0 then Monday
    else if k == 1 then Tuesday
    else if k == 2 then Wednesday
    else if k == 3 then Thursday
    else if k == 4 then Friday
    else if k == 5 then Saturday
    else Sunday
  }

  /** Proleptic Gregorian (year, month, day) of a day number. */
  function CivilFromDays(d: Date): (r: (int, int, int))
    ensures 1 <= r.1 <= 12 && 1 <= r.2 <= 31
  {
    var z := d + 719468;
    var era := z / 146097;
    var doe := z - era * 146097;
    var yoe := (doe - doe / 1460 + doe / 36524 - doe / 146096) / 365;
    var doy := doe - (365 * yoe + yoe / 4 - yoe / 100);
    var mp := (5 * doy + 2) / 153;
    var day := doy - (153 * mp + 2) / 5 + 1;
    var month := if mp < 10 then mp + 3 else mp - 9;
    (yoe + era * 400 + (if month <= 2 then 1 else 0), month, day)
  }

  /** `Date::year`. */
  function YearOf(d: Date): int {
    CivilFromDays(d).0
  }

  /** The date the local wall clock shows at an instant. */
  function DateOf(t: OffsetDateTime): Date {
    t.Local() / DAY
  }

  /** The local time of day at an instant. */
  function TimeOf(t: OffsetDateTime): Time {
    t.Local() % DAY
  }

  /** 2023-01-01 is day 19358, a Sunday. */
  lemma NewYear2023()
    ensures YearOf(19358) == 2023 && WeekdayOf(19358) == Sunday
  {
    var z := 19358 + 719468;
    assert z / 146097 == 5;
    var doe := z - 5 * 146097;
    assert doe == 8341;
    assert (doe - doe / 1460 + doe / 36524 - doe / 146096) / 365 == 22;
    assert doe - (365 * 22 + 22 / 4 - 22 / 100) == 306;
    assert (5 * 306 + 2) / 153 == 10;
    assert CivilFromDays(19358).0 == 22 + 5 * 400 + 1;
    assert (19358 + 3) % 7 == 6;
  }

  predicate IsDigit(c: char) { '0' <= c <= '9' }

  predicate AllDigits(s: string) {
    forall k :: 0 <= k < |s| ==> IsDigit(s[k])
  }

  /** The number ASCII decimal digits stand for (`str::parse`). */
  function DecimalValue(s: string): (n: nat)
    requires AllDigits(s)
    decreases |s|
  {
    if s == [] then 0
    else 10 * DecimalValue(s[..|s| - 1]) + (s[|s| - 1] as int - '0' as int)
  }

  /** Two decimal digits, zero-padded (`[hour]`, `[minute]`, `[day]` format items). */
  function TwoDigits(n: nat): (s: string)
    requires n < 100
    ensures |s| == 2 && AllDigits(s) && DecimalValue(s) == n
  {
    var s := [Digit(n / 10), Digit(n % 10)];
    assert s[..1] == [Digit(n / 10)] && s[..1][..0] == [];
    assert DecimalValue(s[..1]) == n / 10;
    assert DecimalValue(s) == 10 * (n / 10) + n % 10;
    s
  }

  /** The ASCII digit for `n`. */
  function Digit(n: nat): (c: char)
    requires n < 10
    ensures '0' <= c <= '9' && c as int - '0' as int == n
  {
    ('0' as int + n) as char
  }

  /** `s` reads `HH:MM`, the hour and the minute of the time of day `tod`. */
  predicate ShowsTime(s: string, tod: int) {
    |s| == 5 && s[2] == ':' && AllDigits(s[..2]) && AllDigits(s[3..]) &&
    DecimalValue(s[..2]) == tod / HOUR && DecimalValue(s[3..]) == (tod % HOUR) / MINUTE
  }

  /** The `[hour]:[minute]` rendering of an instant in its own offset. */
  function HourMinute(t: OffsetDateTime): (s: string)
    ensures ShowsTime(s, TimeOf(t))
  {
    var tod := TimeOf(t);
    var s := TwoDigits(tod / HOUR) + ":" + TwoDigits((tod % HOUR) / MINUTE);
    assert s[..2] == TwoDigits(tod / HOUR) && s[3..] == TwoDigits((tod % HOUR) / MINUTE);
    s
  }

  /** Read back, the rendering is the local time of day cut down to the whole minute. */
  lemma HourMinuteReadsBack(t: OffsetDateTime)
    ensures var s := HourMinute(t);
      DecimalValue(s[..2]) < 24 && DecimalValue(s[3..]) < 60 &&
      FromHm(DecimalValue(s[..2]), DecimalValue(s[3..])) == TimeOf(t) - TimeOf(t) % MINUTE
  {
    var tod := TimeOf(t);
    var h, m := tod / HOUR, (tod % HOUR) / MINUTE;
    assert tod == h * HOUR + tod % HOUR;
    assert tod % HOUR == m * MINUTE + (tod % HOUR) % MINUTE;
    assert (tod % HOUR) % MINUTE == tod % MINUTE;
  }

  /** Decimal rendering of a natural number, as `{}` prints an unsigned integer. */
  function NatToString(n: nat): (s: string)
    ensures |s| > 0 && AllDigits(s) && DecimalValue(s) == n
    ensures n < 10 <==> |s| == 1
    ensures s[0] == '0' <==> n == 0
    decreases n
  {
    if n < 10 then
      var s := [Digit(n)];
      assert s[..0] == [];
      s
    else
      var s := NatToString(n / 10) + [Digit(n % 10)];
      assert s[..|s| - 1] == NatToString(n / 10);
      assert s[0] == NatToString(n / 10)[0];
      s
  }
}
