/**
 * Time entries as the newer API client sees them: the fetched entry with its
 * breaks, the open-break lookup, the payload of a manual entry built up by
 * `NewTimeEntry`, its one-line rendering, and the endpoint each clock action
 * posts to.
 */
module TimeEntries {
  import opened Wrappers
  import opened Clock

  /** The time and break policy an entry was recorded under. */
  datatype ActivePolicyRef = ActivePolicyRef(timePolicyId: string, breakPolicyId: string)

  /** A break of a fetched entry; an open break has no end time yet. */
  datatype TimeEntryBreak = TimeEntryBreak(
    breakTypeId: string,
    description: string,
    start: OffsetDateTime,
    end: Option<OffsetDateTime>)

  /** A fetched time entry; an entry still clocked in has no end time. */
  datatype TimeEntry = TimeEntry(
    id: string,
    activePolicy: ActivePolicyRef,
    start: OffsetDateTime,
    end: Option<OffsetDateTime>,
    breaks: seq<TimeEntryBreak>)

  /** `current_time_entry`: the server lists the entries without an end time; the first one is current. */
  function CurrentTimeEntry(entries: seq<TimeEntry>): (r: Option<TimeEntry>)
    ensures r.None? <==> |entries| == 0
    ensures r.Some? ==> r.value in entries && r.value == entries[0]
  {
    if |entries| == 0 then None else Some(entries[0])
  }

  /** A break is open while it has no end time. */
  predicate IsOpen(b: TimeEntryBreak) {
    b.end.None?
  }

  /** `TimeEntry::current_break`: the first open break of the entry. */
  function CurrentBreak(e: TimeEntry): (r: Option<TimeEntryBreak>)
    ensures r.None? <==> forall k :: 0 <= k < |e.breaks| ==> !IsOpen(e.breaks[k])
    ensures r.Some? ==> IsOpen(r.value) && exists k :: (0 <= k < |e.breaks| && e.breaks[k] == r.value &&
      forall j :: 0 <= j < k ==> !IsOpen(e.breaks[j]))
  {
    FirstOpen(e.breaks)
  }

  /** The first open break of a list. */
  function FirstOpen(bs: seq<TimeEntryBreak>): (r: Option<TimeEntryBreak>)
    ensures r.None? <==> forall k :: 0 <= k < |bs| ==> !IsOpen(bs[k])
    ensures r.Some? ==> IsOpen(r.value) && exists k :: (0 <= k < |bs| && bs[k] == r.value &&
      forall j :: 0 <= j < k ==> !IsOpen(bs[j]))
  {
    if |bs| == 0 then None
    else if IsOpen(bs[0]) then Some(bs[0])
    else
      var r := FirstOpen(bs[1..]);
      if r.Some? then
        var k :| 0 <= k < |bs[1..]| && bs[1..][k] == r.value && forall j :: 0 <= j < k ==> !IsOpen(bs[1..][j]);
        assert bs[k + 1] == r.value && forall j :: 0 <= j < k + 1 ==> !IsOpen(bs[j]);
        r
      else
        assert forall k :: 1 <= k < |bs| ==> bs[k] == bs[1..][k - 1];
        r
  }

  /** `TimeEntryBreak::duration`: how long a closed break lasted; nothing for an open one. */
  function BreakDuration(b: TimeEntryBreak): (r: Option<int>)
    ensures r.Some? <==> b.end.Some?
    ensures r.Some? ==> Later(b.start, r.value).utc == b.end.value.utc
  {
    match b.end
    case Some(end) => Some(Elapsed(end, b.start))
    case None => None
  }

  /** Where the fetched list of open entries leaves the clock. */
  datatype ClockState =
    | ClockedOut
    | ClockedIn(entry: TimeEntry)
    | OnBreak(entry: TimeEntry, open: TimeEntryBreak)

  /** Not clocked in, clocked in, or on a break, read off the current entry and its open break. */
  function StateOf(entries: seq<TimeEntry>): (s: ClockState)
    ensures s.ClockedOut? <==> CurrentTimeEntry(entries).None?
    ensures s.ClockedIn? ==> CurrentTimeEntry(entries) == Some(s.entry) && CurrentBreak(s.entry).None?
    ensures s.OnBreak? ==> CurrentTimeEntry(entries) == Some(s.entry) && CurrentBreak(s.entry) == Some(s.open)
  {
    match CurrentTimeEntry(entries)
    case None => ClockedOut
    case Some(entry) =>
      match CurrentBreak(entry)
      case None => ClockedIn(entry)
      case Some(open) => OnBreak(entry, open)
  }

  /** The calls the clock commands make, after reading the current entry. */
  datatype Request =
    | GetBreakPolicy(policyId: string)
    | PostStartBreak(entryId: string, breakTypeId: string)
    | PostEndBreak(entryId: string, breakTypeId: string)
    | PostStopClock(entryId: string)

  /** The collection every time-entry endpoint lives under. */
  const ENTRIES_PATH: string := "time_tracking/api/time_entries"

  /** The endpoint that opens a break on entry `id`. */
  function StartBreakPath(id: string): string {
    ENTRIES_PATH + "/" + id + "/start_break"
  }

  /** The endpoint that closes the open break of entry `id`. */
  function EndBreakPath(id: string): string {
    ENTRIES_PATH + "/" + id + "/end_break"
  }

  /** The endpoint that clocks entry `id` out. */
  function StopClockPath(id: string): string {
    ENTRIES_PATH + "/" + id + "/stop_clock"
  }

  /** The collection break policies are fetched from. */
  const BREAK_POLICIES_PATH: string := "time_tracking/api/time_entry_break_policies"

  /** The endpoint each request goes to. */
  function Path(r: Request): string {
    match r
    case GetBreakPolicy(id) => BREAK_POLICIES_PATH + "/" + id
    case PostStartBreak(id, _) => StartBreakPath(id)
    case PostEndBreak(id, _) => EndBreakPath(id)
    case PostStopClock(id) => StopClockPath(id)
  }

  /** Whether `s` ends with `suffix`. */
  predicate EndsWith(s: string, suffix: string) {
    |suffix| <= |s| && s[|s| - |suffix|..] == suffix
  }

  lemma SuffixOfAppend(prefix: string, suffix: string)
    ensures EndsWith(prefix + suffix, suffix)
  {
    assert (prefix + suffix)[|prefix|..] == suffix;
  }

  /**
   * Each action posts to the endpoint named after it, under the entry's own
   * id, and no two actions share an endpoint.
   */
  lemma ActionPaths(id: string)
    ensures EndsWith(StartBreakPath(id), "/" + id + "/start_break")
    ensures EndsWith(EndBreakPath(id), "/" + id + "/end_break")
    ensures EndsWith(StopClockPath(id), "/" + id + "/stop_clock")
    ensures StartBreakPath(id) != EndBreakPath(id)
    ensures StartBreakPath(id) != StopClockPath(id)
    ensures EndBreakPath(id) != StopClockPath(id)
  {
    SuffixOfAppend(ENTRIES_PATH, "/" + id + "/start_break");
    SuffixOfAppend(ENTRIES_PATH, "/" + id + "/end_break");
    SuffixOfAppend(ENTRIES_PATH, "/" + id + "/stop_clock");
    var p := ENTRIES_PATH + "/" + id + "/";
    assert StartBreakPath(id) == p + "start_break";
    assert EndBreakPath(id) == p + "end_break";
    assert StopClockPath(id) == p + "stop_clock";
    assert (p + "start_break")[|p|] == 's';
    assert (p + "end_break")[|p|] == 'e';
    assert (p + "stop_clock")[|p| + 1] == 't';
    assert (p + "start_break")[|p| + 1] == 't';
    assert (p + "start_break")[|p| + 2] == 'a';
    assert (p + "stop_clock")[|p| + 2] == 'o';
  }

  /** A worked shift of a new entry. */
  datatype NewShift = NewShift(start: OffsetDateTime, end: OffsetDateTime)

  /** A break of a new entry, tagged with the break type it is booked as. */
  datatype NewBreak = NewBreak(breakTypeId: string, start: OffsetDateTime, end: OffsetDateTime)

  /** The payload a new entry is posted with. */
  datatype Payload = Payload(shifts: seq<NewShift>, breaks: seq<NewBreak>, source: string)

  /** `HH:MM-HH:MM` for one break. */
  function BreakItem(b: NewBreak): (s: string)
    ensures |s| == 11 && s[5] == '-'
    ensures ShowsTime(s[..5], TimeOf(b.start)) && ShowsTime(s[6..], TimeOf(b.end))
  {
    var s := HourMinute(b.start) + "-" + HourMinute(b.end);
    assert s[..5] == HourMinute(b.start) && s[6..] == HourMinute(b.end);
    s
  }

  /** The items of a break list, one per break and in order. */
  function Items(bs: seq<NewBreak>): (items: seq<string>)
    ensures |items| == |bs| && forall k :: 0 <= k < |bs| ==> items[k] == BreakItem(bs[k])
  {
    seq(|bs|, k requires 0 <= k < |bs| => BreakItem(bs[k]))
  }

  /** Items joined with `", "`, the separator going only between two items. */
  function Joined(items: seq<string>): string
  {
    if |items| == 0 then ""
    else if |items| == 1 then items[0]
    else Joined(items[..|items| - 1]) + ", " + items[|items| - 1]
  }

  /** The break list as `render_breaks` prints it. */
  function RenderedBreaks(bs: seq<NewBreak>): string {
    Joined(Items(bs))
  }

  /**
   * Item `k` of the rendering sits at offset `13 * k`: eleven characters for
   * the item itself and two for the `", "` before the next one.
   */
  lemma RenderedLayout(bs: seq<NewBreak>)
    ensures |bs| == 0 ==> RenderedBreaks(bs) == ""
    ensures |bs| > 0 ==> |RenderedBreaks(bs)| == 13 * |bs| - 2
    ensures forall k :: 0 <= k < |bs| ==> RenderedBreaks(bs)[13 * k..13 * k + 11] == BreakItem(bs[k])
    ensures forall k :: 0 <= k < |bs| - 1 ==> RenderedBreaks(bs)[13 * k + 11..13 * k + 13] == ", "
  {
    JoinedLayout(Items(bs));
  }

  /** The layout of any list of eleven-character items joined with `", "`. */
  lemma {:induction false} JoinedLayout(items: seq<string>)
    requires forall k :: 0 <= k < |items| ==> |items[k]| == 11
    ensures |items| == 0 ==> Joined(items) == ""
    ensures |items| > 0 ==> |Joined(items)| == 13 * |items| - 2
    ensures forall k :: 0 <= k < |items| ==> Joined(items)[13 * k..13 * k + 11] == items[k]
    ensures forall k :: 0 <= k < |items| - 1 ==> Joined(items)[13 * k + 11..13 * k + 13] == ", "
  {
    if |items| > 1 {
      var init, last := items[..|items| - 1], items[|items| - 1];
      JoinedLayout(init);
      assert init + [last] == items;
      LayoutStep(Joined(init), init, last);
    }
  }

  /** Appending `", "` and one more item to a laid-out rendering puts that item in the next slot and keeps the rest. */
  lemma LayoutStep(prefix: string, init: seq<string>, item: string)
    requires |init| > 0 && |prefix| == 13 * |init| - 2 && |item| == 11
    requires forall k :: 0 <= k < |init| ==> prefix[13 * k..13 * k + 11] == init[k]
    requires forall k :: 0 <= k < |init| - 1 ==> prefix[13 * k + 11..13 * k + 13] == ", "
    ensures var s, items := prefix + ", " + item, init + [item];
      |s| == 13 * |items| - 2 &&
      (forall k :: 0 <= k < |items| ==> s[13 * k..13 * k + 11] == items[k]) &&
      (forall k :: 0 <= k < |items| - 1 ==> s[13 * k + 11..13 * k + 13] == ", ")
  {
    var s, items := prefix + ", " + item, init + [item];
    forall k | 0 <= k < |items|
      ensures s[13 * k..13 * k + 11] == items[k]
    {
      if k < |init| {
        assert s[13 * k..13 * k + 11] == prefix[13 * k..13 * k + 11];
      } else {
        assert s[13 * k..13 * k + 11] == s[|prefix| + 2..];
      }
    }
    forall k | 0 <= k < |items| - 1
      ensures s[13 * k + 11..13 * k + 13] == ", "
    {
      if k < |init| - 1 {
        assert s[13 * k + 11..13 * k + 13] == prefix[13 * k + 11..13 * k + 13];
      } else {
        assert s[13 * k + 11..13 * k + 13] == s[|prefix|..|prefix| + 2];
      }
    }
  }

  /** The rendering is empty exactly when there are no breaks, and never opens with a separator. */
  lemma NoLeadingSeparator(bs: seq<NewBreak>)
    ensures RenderedBreaks(bs) == "" <==> |bs| == 0
    ensures |bs| > 0 ==> RenderedBreaks(bs)[..11] == BreakItem(bs[0]) && RenderedBreaks(bs)[0] != ','
  {
    RenderedLayout(bs);
    if |bs| > 0 {
      assert RenderedBreaks(bs)[0] == BreakItem(bs[0])[0] == HourMinute(bs[0].start)[0];
    }
  }

  /** `[weekday repr:short]`. */
  function WeekdayShort(w: Weekday): (s: string)
    ensures |s| == 3 && WeekdayNamed(s) == Some(w)
  {
    match w
    case Monday => "Mon"
    case Tuesday => "Tue"
    case Wednesday => "Wed"
    case Thursday => "Thu"
    case Friday => "Fri"
    case Saturday => "Sat"
    case Sunday => "Sun"
  }

  /** The weekday a short name stands for, if any. */
  function WeekdayNamed(s: string): Option<Weekday> {
    if s == "Mon" then Some(Monday)
    else if s == "Tue" then Some(Tuesday)
    else if s == "Wed" then Some(Wednesday)
    else if s == "Thu" then Some(Thursday)
    else if s == "Fri" then Some(Friday)
    else if s == "Sat" then Some(Saturday)
    else if s == "Sun" then Some(Sunday)
    else None
  }

  const MONTH_NAMES: seq<string> := ["Jan", "Feb", "Mar", "Apr", "May", "Jun", "Jul", "Aug", "Sep", "Oct", "Nov", "Dec"]

  /** `[month repr:short]`. */
  function MonthShort(m: int): (s: string)
    requires 1 <= m <= 12
    ensures |s| == 3 && MonthNamed(s) == Some(m)
  {
    MONTH_NAMES[m - 1]
  }

  /** The month number a short name stands for, if any. */
  function MonthNamed(s: string): (m: Option<int>)
    ensures m.Some? ==> 1 <= m.value <= 12
  {
    if s == "Jan" then Some(1) else if s == "Feb" then Some(2) else if s == "Mar" then Some(3)
    else if s == "Apr" then Some(4) else if s == "May" then Some(5) else if s == "Jun" then Some(6)
    else if s == "Jul" then Some(7) else if s == "Aug" then Some(8) else if s == "Sep" then Some(9)
    else if s == "Oct" then Some(10) else if s == "Nov" then Some(11) else if s == "Dec" then Some(12)
    else None
  }

  /** `[weekday repr:short] [day] [month repr:short]` for a calendar date. */
  function DateText(d: Date): (s: string)
    ensures |s| == 10 && s[3] == ' ' && s[6] == ' '
    ensures WeekdayNamed(s[..3]) == Some(WeekdayOf(d))
    ensures AllDigits(s[4..6]) && DecimalValue(s[4..6]) == CivilFromDays(d).2
    ensures MonthNamed(s[7..]) == Some(CivilFromDays(d).1)
  {
    var c := CivilFromDays(d);
    var s := WeekdayShort(WeekdayOf(d)) + " " + TwoDigits(c.2) + " " + MonthShort(c.1);
    assert s[..3] == WeekdayShort(WeekdayOf(d)) && s[4..6] == TwoDigits(c.2) && s[7..] == MonthShort(c.1);
    s
  }

  /** The head of the one-line summary: the shift's date and its `HH:MM-HH:MM`. */
  function ShiftLine(s: NewShift): (line: string)
    ensures |line| == 22 && line[..10] == DateText(DateOf(s.start)) && line[10] == ' ' && line[16] == '-'
    ensures ShowsTime(line[11..16], TimeOf(s.start)) && ShowsTime(line[17..], TimeOf(s.end))
  {
    var line := DateText(DateOf(s.start)) + " " + HourMinute(s.start) + "-" + HourMinute(s.end);
    assert line[..10] == DateText(DateOf(s.start));
    assert line[11..16] == HourMinute(s.start) && line[17..] == HourMinute(s.end);
    line
  }

  /** A manual entry under construction: shifts and breaks are only ever appended. */
  class NewTimeEntry {
    var shifts: seq<NewShift>
    var breaks: seq<NewBreak>
    var source: string

    /** `NewTimeEntry::new`: nothing booked yet, submitted as a web entry. */
    constructor ()
      ensures shifts == [] && breaks == [] && source == "WEB"
    {
      shifts := [];
      breaks := [];
      source := "WEB";
    }

    /** The payload as it stands. */
    function Value(): Payload
      reads this
    {
      Payload(shifts, breaks, source)
    }

    /** `add_shift`: one more shift at the end; the breaks stay as they were. */
    method AddShift(start: OffsetDateTime, end: OffsetDateTime)
      modifies this
      ensures shifts == old(shifts) + [NewShift(start, end)]
      ensures breaks == old(breaks) && source == old(source)
    {
      shifts := shifts + [NewShift(start, end)];
    }

    /** `add_break`: one more break of the given type at the end; the shifts stay as they were. */
    method AddBreak(breakType: string, start: OffsetDateTime, end: OffsetDateTime)
      modifies this
      ensures breaks == old(breaks) + [NewBreak(breakType, start, end)]
      ensures shifts == old(shifts) && source == old(source)
    {
      breaks := breaks + [NewBreak(breakType, start, end)];
    }

    /** `render_breaks`: a fold that puts `", "` before every item but the first. */
    method RenderBreaks() returns (s: string)
      ensures s == RenderedBreaks(breaks)
    {
      s := "";
      var i := 0;
      while i < |breaks|
        invariant 0 <= i <= |breaks|
        invariant s == Joined(Items(breaks[..i]))
        invariant |s| > 0 <==> i > 0
      {
        assert Items(breaks[..i + 1])[..i] == Items(breaks[..i]);
        if |s| > 0 {
          s := s + ", ";
        }
        s := s + BreakItem(breaks[i]);
        i := i + 1;
      }
      assert breaks[..i] == breaks;
    }

    /**
     * `Display`: the first shift's date and times, followed by
     * ` (Breaks …)` when there is at least one break; with no shift at all
     * the `first().unwrap()` panics.
     */
    function Display(): (r: Outcome<string>)
      reads this
      ensures r.Panicked? <==> |shifts| == 0
      ensures r.Returned? && |breaks| == 0 ==> r.value == ShiftLine(shifts[0])
      ensures r.Returned? && |breaks| > 0 ==>
        r.value == ShiftLine(shifts[0]) + " (Breaks " + RenderedBreaks(breaks) + ")"
    {
      if |shifts| == 0 then Panicked("shifts.first().unwrap()")
      else
        var out := ShiftLine(shifts[0]);
        Returned(if |breaks| > 0 then out + " (Breaks " + RenderedBreaks(breaks) + ")" else out)
    }
  }
}
