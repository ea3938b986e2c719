/**
 * The manual-entry command of the older front end (`add_entry`): every
 * parsed shift of the chosen date becomes a shift of a new entry, each shift
 * gets its own statutory break centred in it, and the entry is submitted.
 * Unlike the newer command there is no workday check, no gap between shifts
 * becomes a break, and every instant takes the offset the local zone has at
 * the moment the command runs, whatever the date.
 */
module LegacyManualEntry {
  import opened Wrappers
  import opened Clock
  import opened BreakRule
  import opened ShiftParser
  import opened TimeEntries
  import BreakPolicy
  import ApiErrors
  import opened LegacyCommands

  type Fetched<T> = Result<T, ApiErrors.Error>

  /** The panic of `manual_break_type().unwrap()` when the policy allows no manual break. */
  const NO_MANUAL_TYPE: string := "break_policy.manual_break_type().unwrap()"

  /**
   * `naive_to_fixed_datetime`: the wall-clock time `t` of `date`, read in the
   * offset `offsetNow` the local zone has at the moment of the call.
   */
  function FixedInstant(date: Date, t: Time, offsetNow: int): (i: OffsetDateTime)
    ensures i.Local() == date * DAY + t && i.offset == offsetNow
    ensures DateOf(i) == date && TimeOf(i) == t
  {
    AssumeOffset(date * DAY + t, offsetNow)
  }

  /** The shift `add_entry` adds for one parsed range. */
  function ShiftOf(date: Date, range: TimeRange, offsetNow: int): (s: NewShift)
    ensures DateOf(s.start) == date && TimeOf(s.start) == range.start
    ensures DateOf(s.end) == date && TimeOf(s.end) == range.end
    ensures s.start.offset == offsetNow && s.end.offset == offsetNow
  {
    NewShift(FixedInstant(date, range.start, offsetNow), FixedInstant(date, range.end, offsetNow))
  }

  /** The shifts of the entry: one per parsed range, in input order, all in the same offset. */
  function ShiftsOf(date: Date, ranges: seq<TimeRange>, offsetNow: int): (r: seq<NewShift>)
    ensures |r| == |ranges|
    ensures forall k :: 0 <= k < |ranges| ==> r[k] == ShiftOf(date, ranges[k], offsetNow)
  {
    seq(|ranges|, k requires 0 <= k < |ranges| => ShiftOf(date, ranges[k], offsetNow))
  }

  /**
   * The break `set_minimum_breaks` books for one shift of `d` seconds: it
   * starts `d/2 - b/2` after the shift starts and lasts the statutory `b`.
   */
  function CentredBreak(s: NewShift, typeId: string): (b: NewBreak)
    ensures b.breakTypeId == typeId
    ensures b.start.offset == s.start.offset && b.end.offset == s.start.offset
    ensures var d := Elapsed(s.end, s.start);
      Elapsed(b.start, s.start) == Half(d) - Half(MinimumBreakFor(d)) &&
      Elapsed(b.end, b.start) == MinimumBreakFor(d)
  {
    var duration := Elapsed(s.end, s.start);
    var breakDuration := MinimumBreakFor(duration);
    var breakStart := Later(Later(s.start, Half(duration)), -Half(breakDuration));
    NewBreak(typeId, breakStart, Later(breakStart, breakDuration))
  }

  /** One centred break per shift, in the order of the shifts. */
  function CentredBreaks(shifts: seq<NewShift>, typeId: string): (r: seq<NewBreak>)
    ensures |r| == |shifts|
    ensures forall k :: 0 <= k < |shifts| ==> r[k] == CentredBreak(shifts[k], typeId)
  {
    seq(|shifts|, k requires 0 <= k < |shifts| => CentredBreak(shifts[k], typeId))
  }

  /**
   * `set_minimum_breaks`: looks up the manual break type (panicking before
   * anything changes when there is none), collects one break per shift and
   * then appends them to the entry. The shifts are left as they were.
   */
  method SetMinimumBreaks(entry: NewTimeEntry, policy: BreakPolicy.Policy) returns (r: Outcome<()>)
    modifies entry
    ensures entry.shifts == old(entry.shifts) && entry.source == old(entry.source)
    ensures BreakPolicy.ManualBreakType(policy).None? ==> r == Panicked(NO_MANUAL_TYPE) && entry.breaks == old(entry.breaks)
    ensures BreakPolicy.ManualBreakType(policy).Some? ==> (r == Returned(()) &&
      entry.breaks == old(entry.breaks) + CentredBreaks(old(entry.shifts), BreakPolicy.ManualBreakType(policy).value.id))
  {
    var breakType := BreakPolicy.ManualBreakType(policy);
    if breakType.None? {
      return Panicked(NO_MANUAL_TYPE);
    }
    var typeId := breakType.value.id;
    var pending: seq<(OffsetDateTime, OffsetDateTime)> := [];
    for k := 0 to |entry.shifts|
      invariant |pending| == k
      invariant forall j :: 0 <= j < k ==>
        NewBreak(typeId, pending[j].0, pending[j].1) == CentredBreak(entry.shifts[j], typeId)
    {
      var shift := entry.shifts[k];
      var duration := Elapsed(shift.end, shift.start);
      var breakDuration := MinimumBreakFor(duration);
      if WholeMinutes(breakDuration) >= 0 {
        var breakStart := Later(Later(shift.start, Half(duration)), -Half(breakDuration));
        pending := pending + [(breakStart, Later(breakStart, breakDuration))];
      }
    }
    ghost var shifts := entry.shifts;
    ghost var before := entry.breaks;
    for k := 0 to |pending|
      invariant entry.shifts == shifts && entry.source == old(entry.source)
      invariant |entry.breaks| == |before| + k && entry.breaks[..|before|] == before
      invariant forall j :: 0 <= j < k ==> entry.breaks[|before| + j] == CentredBreak(shifts[j], typeId)
    {
      entry.AddBreak(typeId, pending[k].0, pending[k].1);
    }
    assert entry.breaks == before + CentredBreaks(shifts, typeId);
    return Returned(());
  }

  /** The payload `add_entry` submits for a fetched break policy. */
  function EntryFor(date: Date, ranges: seq<TimeRange>, policy: BreakPolicy.Policy, offsetNow: int): (r: Outcome<Payload>)
    ensures r.Panicked? <==> BreakPolicy.ManualBreakType(policy).None?
    ensures r.Panicked? ==> r.site == NO_MANUAL_TYPE
    ensures r.Returned? ==> (r.value.source == "WEB" &&
      r.value.shifts == ShiftsOf(date, ranges, offsetNow) &&
      r.value.breaks == CentredBreaks(r.value.shifts, BreakPolicy.ManualBreakType(policy).value.id))
  {
    match BreakPolicy.ManualBreakType(policy)
    case None => Panicked(NO_MANUAL_TYPE)
    case Some(breakType) =>
      var shifts := ShiftsOf(date, ranges, offsetNow);
      Returned(Payload(shifts, CentredBreaks(shifts, breakType.id), "WEB"))
  }

  /**
   * `add_entry` end to end: a failed policy lookup or fetch is an API error
   * and nothing is submitted; otherwise the payload is submitted and the
   * created entry, or the submission's error, is the result.
   */
  function Added(
    date: Date, ranges: seq<TimeRange>,
    activePolicy: Fetched<BreakPolicy.ActivePolicy>,
    fetchPolicy: string -> Fetched<BreakPolicy.Policy>,
    offsetNow: int,
    create: Payload -> Fetched<TimeEntry>): (r: Outcome<Result<TimeEntry, Error>>)
    ensures activePolicy.Err? ==> r == Returned(Err(ApiError(activePolicy.error)))
    ensures activePolicy.Ok? && fetchPolicy(activePolicy.value.breakPolicy).Err? ==>
      r == Returned(Err(ApiError(fetchPolicy(activePolicy.value.breakPolicy).error)))
    ensures r.Returned? && r.value.Ok? ==>
      activePolicy.Ok? && fetchPolicy(activePolicy.value.breakPolicy).Ok? &&
      var payload := EntryFor(date, ranges, fetchPolicy(activePolicy.value.breakPolicy).value, offsetNow);
      payload.Returned? && create(payload.value) == Ok(r.value.value)
    ensures r.Panicked? <==>
      (activePolicy.Ok? && fetchPolicy(activePolicy.value.breakPolicy).Ok? &&
       BreakPolicy.ManualBreakType(fetchPolicy(activePolicy.value.breakPolicy).value).None?)
    ensures activePolicy.Ok? && fetchPolicy(activePolicy.value.breakPolicy).Ok? && r.Returned? ==>
      var created := create(EntryFor(date, ranges, fetchPolicy(activePolicy.value.breakPolicy).value, offsetNow).value);
      r.value == if created.Ok? then Ok(created.value) else Err(ApiError(created.error))
  {
    match activePolicy
    case Err(e) => Returned(Err(ApiError(e)))
    case Ok(active) =>
      match fetchPolicy(active.breakPolicy)
      case Err(e) => Returned(Err(ApiError(e)))
      case Ok(policy) =>
        match EntryFor(date, ranges, policy, offsetNow)
        case Panicked(site) => Panicked(site)
        case Returned(payload) =>
          match create(payload)
          case Err(e) => Returned(Err(ApiError(e)))
          case Ok(created) => Returned(Ok(created))
  }

  /** `add_entry`: builds the entry shift by shift, adds the breaks and submits it. */
  method AddEntry(
    date: Date, ranges: seq<TimeRange>,
    activePolicy: Fetched<BreakPolicy.ActivePolicy>,
    fetchPolicy: string -> Fetched<BreakPolicy.Policy>,
    offsetNow: int,
    create: Payload -> Fetched<TimeEntry>) returns (r: Outcome<Result<TimeEntry, Error>>)
    ensures r == Added(date, ranges, activePolicy, fetchPolicy, offsetNow, create)
  {
    if activePolicy.Err? {
      return Returned(Err(ApiError(activePolicy.error)));
    }
    var policy := fetchPolicy(activePolicy.value.breakPolicy);
    if policy.Err? {
      return Returned(Err(ApiError(policy.error)));
    }
    var entry := new NewTimeEntry();
    for k := 0 to |ranges|
      invariant |entry.shifts| == k && entry.breaks == [] && entry.source == "WEB"
      invariant forall j :: 0 <= j < k ==> entry.shifts[j] == ShiftOf(date, ranges[j], offsetNow)
    {
      entry.AddShift(FixedInstant(date, ranges[k].start, offsetNow), FixedInstant(date, ranges[k].end, offsetNow));
    }
    assert entry.shifts == ShiftsOf(date, ranges, offsetNow);
    var placed := SetMinimumBreaks(entry, policy.value);
    if placed.Panicked? {
      return Panicked(placed.site);
    }
    assert entry.Value() == EntryFor(date, ranges, policy.value, offsetNow).value;
    var created := create(entry.Value());
    if created.Err? {
      return Returned(Err(ApiError(created.error)));
    }
    return Returned(Ok(created.value));
  }

  /**
   * A shift over six hours gets its break strictly inside it, lasting the
   * statutory minimum; for whole-minute shifts the margins before and after
   * the break are equal.
   */
  lemma LongShiftBreakInside(s: NewShift, typeId: string)
    requires Elapsed(s.end, s.start) > 6 * HOUR
    ensures var b := CentredBreak(s, typeId);
      s.start.utc < b.start.utc < b.end.utc < s.end.utc &&
      Elapsed(b.end, b.start) == MinimumBreakFor(Elapsed(s.end, s.start)) &&
      (s.start.utc % MINUTE == 0 && s.end.utc % MINUTE == 0 ==>
        Elapsed(b.start, s.start) == Elapsed(s.end, b.end))
  {
    var d := Elapsed(s.end, s.start);
    var m := MinimumBreakFor(d);
    BreakFitsInShift(d);
    if s.start.utc % MINUTE == 0 && s.end.utc % MINUTE == 0 {
      assert d % MINUTE == 0;
      HalfOfWholeMinutes(d);
      assert m % MINUTE == 0;
      HalfOfWholeMinutes(m);
    }
  }

  /**
   * A shift of at most six hours still gets a break, because the guard
   * `num_minutes() >= 0` always holds: an empty break at the shift's midpoint.
   */
  lemma ShortShiftEmptyBreak(s: NewShift, typeId: string)
    requires Elapsed(s.end, s.start) <= 6 * HOUR
    ensures var b := CentredBreak(s, typeId);
      b.start == b.end && Elapsed(b.start, s.start) == Half(Elapsed(s.end, s.start))
  {
  }

  /**
   * Every shift of a submitted payload carries exactly one break, of the
   * manual type, and every instant has the offset of the moment of the call,
   * whatever the date.
   */
  lemma {:induction false} OneBreakPerShift(date: Date, ranges: seq<TimeRange>, policy: BreakPolicy.Policy, offsetNow: int)
    requires BreakPolicy.ManualBreakType(policy).Some?
    ensures var p := EntryFor(date, ranges, policy, offsetNow);
      p.Returned? && |p.value.breaks| == |p.value.shifts| == |ranges| &&
      forall k :: 0 <= k < |ranges| ==>
        p.value.breaks[k].breakTypeId == BreakPolicy.ManualBreakType(policy).value.id &&
        p.value.shifts[k].start.offset == offsetNow && p.value.shifts[k].end.offset == offsetNow &&
        p.value.breaks[k].start.offset == offsetNow && p.value.breaks[k].end.offset == offsetNow &&
        TimeOf(p.value.shifts[k].start) == ranges[k].start && TimeOf(p.value.shifts[k].end) == ranges[k].end
  {
    var p := EntryFor(date, ranges, policy, offsetNow);
    var id := BreakPolicy.ManualBreakType(policy).value.id;
    forall k | 0 <= k < |ranges|
      ensures p.value.breaks[k].breakTypeId == id
      ensures p.value.shifts[k].start.offset == offsetNow && p.value.shifts[k].end.offset == offsetNow
      ensures p.value.breaks[k].start.offset == offsetNow && p.value.breaks[k].end.offset == offsetNow
      ensures TimeOf(p.value.shifts[k].start) == ranges[k].start && TimeOf(p.value.shifts[k].end) == ranges[k].end
    {
      assert p.value.shifts[k] == ShiftOf(date, ranges[k], offsetNow);
      assert p.value.breaks[k] == CentredBreak(p.value.shifts[k], id);
    }
  }

  /** A policy without a manual break type panics once both fetches have succeeded, and nothing is submitted. */
  lemma NoManualTypePanics(
    date: Date, ranges: seq<TimeRange>,
    active: BreakPolicy.ActivePolicy,
    fetchPolicy: string -> Fetched<BreakPolicy.Policy>,
    offsetNow: int,
    create: Payload -> Fetched<TimeEntry>)
    requires fetchPolicy(active.breakPolicy).Ok?
    requires BreakPolicy.ManualBreakType(fetchPolicy(active.breakPolicy).value).None?
    ensures Added(date, ranges, Ok(active), fetchPolicy, offsetNow, create) == Panicked(NO_MANUAL_TYPE)
  {
  }

  /** 08:00-12:00 UTC: four hours owe no break, yet an empty break is booked at 10:00. */
  lemma MorningShift()
    ensures var s := NewShift(OffsetDateTime(8 * HOUR, 0), OffsetDateTime(12 * HOUR, 0));
      CentredBreak(s, "manual") == NewBreak("manual", OffsetDateTime(10 * HOUR, 0), OffsetDateTime(10 * HOUR, 0))
  {
    assert MinimumBreakFor(4 * HOUR) == 0;
  }
}
