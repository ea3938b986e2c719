/**
 * The workday check (`pto::check`, identical in both revisions apart from
 * threads and a sleep): weekend, then holiday, then approved leave, then
 * working day. The three sub-checks run on threads in the source; here their
 * joined results are inputs and the decision is taken in the same order.
 */
module Workday {
  import opened Wrappers
  import opened Clock
  import ApiErrors

  type Error = ApiErrors.Error

  /** A public holiday record of the holiday calendar. */
  datatype Holiday = Holiday(name: string, kind: string, start: Date, end: Date, countAsOvertime: bool)

  /** One year bucket of the holiday calendar. */
  datatype HolidaysOfYear = HolidaysOfYear(year: int, holidays: seq<Holiday>)

  /** An approved leave request. */
  datatype LeaveRequest = LeaveRequest(isDeleted: Option<bool>, start: Date, end: Date, status: string, leaveTypeName: string)

  datatype CheckOutcome = Leave | OnHoliday(holiday: Holiday) | WorkingDay | Weekend(day: Weekday)

  /** `is_weekend`: the weekday, for Saturday and Sunday only. */
  function IsWeekend(date: Date): (r: Option<Weekday>)
    ensures r.Some? <==> WeekdayOf(date) == Saturday || WeekdayOf(date) == Sunday
    ensures r.Some? ==> r.value == WeekdayOf(date)
  {
    match WeekdayOf(date)
    case Monday => None
    case Tuesday => None
    case Wednesday => None
    case Thursday => None
    case Friday => None
    case _ => Some(WeekdayOf(date))
  }

  predicate Covers(h: Holiday, date: Date) {
    h.start <= date && h.end >= date
  }

  /** The first year bucket for `year` (`find` on the calendar). */
  function YearBucket(calendar: seq<HolidaysOfYear>, year: int): (r: Option<nat>)
    ensures r.Some? ==> (r.value < |calendar| && calendar[r.value].year == year &&
      forall j :: 0 <= j < r.value ==> calendar[j].year != year)
    ensures r.None? ==> forall j :: 0 <= j < |calendar| ==> calendar[j].year != year
  {
    if calendar == [] then None
    else if calendar[0].year == year then Some(0)
    else match YearBucket(calendar[1..], year)
      case None => None
      case Some(k) => Some(k + 1)
  }

  /** The first holiday whose inclusive span contains `date`. */
  function FirstCovering(holidays: seq<Holiday>, date: Date): (r: Option<nat>)
    ensures r.Some? ==> (r.value < |holidays| && Covers(holidays[r.value], date) &&
      forall j :: 0 <= j < r.value ==> !Covers(holidays[j], date))
    ensures r.None? ==> forall j :: 0 <= j < |holidays| ==> !Covers(holidays[j], date)
  {
    if holidays == [] then None
    else if Covers(holidays[0], date) then Some(0)
    else match FirstCovering(holidays[1..], date)
      case None => None
      case Some(k) => Some(k + 1)
  }

  /** The search of `check_holiday` once the calendar is fetched: the first bucket of `year`, then its first covering holiday. */
  function HolidayIn(cal: seq<HolidaysOfYear>, year: int, date: Date): (r: Option<Holiday>)
    ensures r.Some? ==> (Covers(r.value, date) &&
      exists y :: 0 <= y < |cal| && cal[y].year == year && r.value in cal[y].holidays)
  {
    match YearBucket(cal, year)
    case None => None
    case Some(y) =>
      match FirstCovering(cal[y].holidays, date)
      case None => None
      case Some(k) => Some(cal[y].holidays[k])
  }

  /**
   * `check_holiday`: a failed calendar fetch is an error; otherwise only the
   * bucket of the date's year is searched, and a missing bucket means no holiday.
   */
  function CheckHoliday(date: Date, calendar: Result<seq<HolidaysOfYear>, Error>): (r: Result<Option<Holiday>, Error>)
    ensures calendar.Err? <==> r.Err?
    ensures calendar.Err? ==> r.error == calendar.error
    ensures r.Ok? && r.value.Some? ==> (Covers(r.value.value, date) &&
      exists y :: 0 <= y < |calendar.value| && calendar.value[y].year == YearOf(date) && r.value.value in calendar.value[y].holidays)
  {
    match calendar
    case Err(e) => Err(e)
    case Ok(cal) => Ok(HolidayIn(cal, YearOf(date), date))
  }

  /** `any` over the requests: some inclusive span contains `date`. */
  function AnyCovering(requests: seq<LeaveRequest>, date: Date): (found: bool)
    ensures found <==> exists k :: 0 <= k < |requests| && requests[k].start <= date && requests[k].end >= date
  {
    if requests == [] then false
    else (requests[0].start <= date && requests[0].end >= date) || AnyCovering(requests[1..], date)
  }

  /** `is_leave_request`: a failed fetch is an error, otherwise whether any request covers the date. */
  function IsLeaveRequest(date: Date, requests: Result<seq<LeaveRequest>, Error>): (r: Result<bool, Error>)
    ensures requests.Err? <==> r.Err?
    ensures requests.Ok? ==> r == Ok(AnyCovering(requests.value, date))
  {
    match requests
    case Err(e) => Err(e)
    case Ok(list) => Ok(AnyCovering(list, date))
  }

  /** The `if let ... else if let ...` chain of `check` over the joined sub-results. */
  function Decide(weekend: Option<Weekday>, holiday: Result<Option<Holiday>, Error>, leave: Result<bool, Error>):
    (r: Result<CheckOutcome, Error>)
    ensures weekend.Some? ==> r == Ok(Weekend(weekend.value))
    ensures r.Err? <==> weekend.None? && (holiday.Err? || (holiday == Ok(None) && leave.Err?))
    ensures r.Err? && holiday.Err? ==> r.error == holiday.error
    ensures r.Err? && holiday.Ok? ==> r.error == leave.error
    ensures r.Ok? && r.value.OnHoliday? <==> weekend.None? && holiday.Ok? && holiday.value.Some?
    ensures r.Ok? && r.value.OnHoliday? ==> holiday.value == Some(r.value.holiday)
    ensures r == Ok(Leave) <==> weekend.None? && holiday == Ok(None) && leave == Ok(true)
    ensures r == Ok(WorkingDay) <==> weekend.None? && holiday == Ok(None) && leave == Ok(false)
  {
    if weekend.Some? then Ok(Weekend(weekend.value))
    else if holiday.Err? then Err(holiday.error)
    else if holiday.value.Some? then Ok(OnHoliday(holiday.value.value))
    else if leave.Err? then Err(leave.error)
    else if leave.value then Ok(Leave)
    else Ok(WorkingDay)
  }

  /** `check`: the decision over the three sub-checks of one date. */
  function Check(date: Date, calendar: Result<seq<HolidaysOfYear>, Error>, requests: Result<seq<LeaveRequest>, Error>):
    (r: Result<CheckOutcome, Error>)
    ensures r.Ok? && r.value.Weekend? ==>
      (WeekdayOf(date) == Saturday || WeekdayOf(date) == Sunday) && r.value.day == WeekdayOf(date)
    ensures r.Ok? && r.value.OnHoliday? ==>
      (Covers(r.value.holiday, date) && calendar.Ok? &&
       exists y :: 0 <= y < |calendar.value| && calendar.value[y].year == YearOf(date) && r.value.holiday in calendar.value[y].holidays)
    ensures r == Ok(Leave) ==>
      (requests.Ok? &&
       exists k :: 0 <= k < |requests.value| && requests.value[k].start <= date && requests.value[k].end >= date)
    ensures r.Err? ==> (calendar.Err? && r.error == calendar.error) || (requests.Err? && r.error == requests.error)
  {
    Decide(IsWeekend(date), CheckHoliday(date, calendar), IsLeaveRequest(date, requests))
  }

  /** A weekend wins over everything, whatever the other two fetches returned, errors included. */
  lemma WeekendWins(date: Date, calendar: Result<seq<HolidaysOfYear>, Error>, requests: Result<seq<LeaveRequest>, Error>)
    requires WeekdayOf(date) == Saturday || WeekdayOf(date) == Sunday
    ensures Check(date, calendar, requests) == Ok(Weekend(WeekdayOf(date)))
  {
  }

  /** On a weekday a holiday wins over leave: leave is consulted only when there is no holiday. */
  lemma HolidayBeatsLeave(date: Date, calendar: Result<seq<HolidaysOfYear>, Error>, requests: Result<seq<LeaveRequest>, Error>)
    ensures IsWeekend(date).None? && CheckHoliday(date, calendar).Ok? && CheckHoliday(date, calendar).value.Some? ==>
      Check(date, calendar, requests) == Ok(OnHoliday(CheckHoliday(date, calendar).value.value))
  {
  }

  /** `WorkingDay` exactly when all three checks came back negative. */
  lemma WorkingDayOnlyIfAllNegative(date: Date, calendar: Result<seq<HolidaysOfYear>, Error>, requests: Result<seq<LeaveRequest>, Error>)
    ensures Check(date, calendar, requests) == Ok(WorkingDay) <==>
      IsWeekend(date).None? && CheckHoliday(date, calendar) == Ok(None) && IsLeaveRequest(date, requests) == Ok(false)
  {
  }

  /**
   * A holiday-fetch error surfaces only on weekdays; a leave-fetch error only
   * on weekdays that are not holidays. Each surfaces unchanged.
   */
  lemma ErrorsSurface(date: Date, calendar: Result<seq<HolidaysOfYear>, Error>, requests: Result<seq<LeaveRequest>, Error>)
    ensures Check(date, calendar, requests).Err? <==>
      IsWeekend(date).None? && (calendar.Err? || (CheckHoliday(date, calendar) == Ok(None) && requests.Err?))
    ensures Check(date, calendar, requests).Err? ==>
      Check(date, calendar, requests).error == (if calendar.Err? then calendar.error else requests.error)
  {
  }

  /** A holiday is only ever found in the bucket of the date's own year; without that bucket there is none. */
  lemma HolidayNeedsYearBucket(date: Date, calendar: seq<HolidaysOfYear>)
    requires forall y :: 0 <= y < |calendar| ==> calendar[y].year != YearOf(date)
    ensures CheckHoliday(date, Ok(calendar)) == Ok(None)
  {
  }

  /** The first matching holiday of the first bucket of the date's year is reported. */
  lemma FirstHolidayReported(date: Date, calendar: seq<HolidaysOfYear>, year: int, y: nat, k: nat)
    requires y < |calendar| && calendar[y].year == year
    requires forall j :: 0 <= j < y ==> calendar[j].year != year
    requires k < |calendar[y].holidays| && Covers(calendar[y].holidays[k], date)
    requires forall j :: 0 <= j < k ==> !Covers(calendar[y].holidays[j], date)
    ensures HolidayIn(calendar, year, date) == Some(calendar[y].holidays[k])
    ensures year == YearOf(date) ==> CheckHoliday(date, Ok(calendar)) == Ok(Some(calendar[y].holidays[k]))
  {
    var r := YearBucket(calendar, year);
    assert r.Some? && r.value == y;
    var h := FirstCovering(calendar[y].holidays, date);
    assert h.Some? && h.value == k;
  }

  /** New Year's Day 2023 fell on a Sunday: it is reported as a weekend, not as the holiday. */
  lemma NewYearOnSunday(requests: Result<seq<LeaveRequest>, Error>)
    ensures var newYear := Holiday("New Year", "PUBLIC", 19358, 19358, false);
      Check(19358, Ok([HolidaysOfYear(2023, [newYear])]), requests) == Ok(Weekend(Sunday))
  {
    NewYear2023();
  }
}
