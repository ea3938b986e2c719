/**
 * The newer manual-entry command (`execute`, `draft_entry`): the ranges a
 * user typed for one day become a single shift from the first start to the
 * last end, and every gap between ranges, together with every statutory break
 * spliced into a long range, becomes a break of the policy's manual break
 * type. With `--check`, a day that is not a working day is refused first.
 * The holiday calendar, the leave requests, the break policy and the local
 * UTC offset are inputs.
 */
module ManualEntry {
  import opened Wrappers
  import opened Clock
  import opened BreakRule
  import opened BreakPlacement
  import opened ShiftParser
  import opened TimeEntries
  import BreakPolicy
  import Workday
  import ApiErrors
  import Commands

  /** `days_ago` is a `u8`. */
  type U8 = n: int | 0 <= n < 256

  /** `execute`: the day `days_ago` days before today, today when it is not given. */
  function TargetDate(today: Date, daysAgo: Option<U8>): (d: Date)
    ensures daysAgo.None? ==> d == today
    ensures daysAgo.Some? ==> d == today - daysAgo.value as int
    ensures 0 <= today - d < 256
  {
    today - daysAgo.GetOr(0)
  }

  /** Every range contributes its start and then its end, in the order typed. */
  function Events(ranges: seq<TimeRange>): (e: seq<Time>)
    ensures |e| == 2 * |ranges| && |e| % 2 == 0
  {
    EvenLength(2 * |ranges|, |ranges|);
    seq(2 * |ranges|, i requires 0 <= i < 2 * |ranges| => if i % 2 == 0 then ranges[i / 2].start else ranges[i / 2].end)
  }

  /** Range `k` sits at positions `2k` and `2k + 1`. */
  lemma EventAt(ranges: seq<TimeRange>, k: nat)
    requires k < |ranges|
    ensures Events(ranges)[2 * k] == ranges[k].start && Events(ranges)[2 * k + 1] == ranges[k].end
  {
    PairIndex(k);
  }

  lemma PairIndex(k: nat)
    ensures (2 * k) % 2 == 0 && (2 * k) / 2 == k
    ensures (2 * k + 1) % 2 == 1 && (2 * k + 1) / 2 == k
  {
  }

  /** One more range adds its start and end at the end. */
  lemma {:induction false} EventsStep(ranges: seq<TimeRange>, i: nat)
    requires i < |ranges|
    ensures Events(ranges[..i + 1]) == Events(ranges[..i]) + [ranges[i].start, ranges[i].end]
  {
    var a := Events(ranges[..i + 1]);
    var b := Events(ranges[..i]) + [ranges[i].start, ranges[i].end];
    assert |a| == |b|;
    forall j | 0 <= j < |a|
      ensures a[j] == b[j]
    {
      if j < 2 * i {
        assert ranges[..i + 1][j / 2] == ranges[..i][j / 2];
      }
    }
  }

  /** `naive_to_fixed_datetime`: a time on the target date, in the offset the zone has at that local time. */
  function ToInstant(date: Date, t: Time, offsetAt: int -> int): (i: OffsetDateTime)
    ensures i.Local() == date * DAY + t && i.offset == offsetAt(date * DAY + t)
  {
    AssumeOffset(date * DAY + t, offsetAt(date * DAY + t))
  }

  /** The placed instant reads the target date and the typed time on the local clock, in the zone's offset. */
  lemma ToInstantReading(date: Date, t: Time, offsetAt: int -> int)
    ensures DateOf(ToInstant(date, t, offsetAt)) == date && TimeOf(ToInstant(date, t, offsetAt)) == t
    ensures ToInstant(date, t, offsetAt).offset == offsetAt(date * DAY + t)
  {
  }

  /** The boundaries placed on the target date. */
  function Instants(date: Date, events: seq<Time>, offsetAt: int -> int): (r: seq<OffsetDateTime>)
    ensures |r| == |events| && forall k :: 0 <= k < |events| ==> r[k] == ToInstant(date, events[k], offsetAt)
  {
    seq(|events|, k requires 0 <= k < |events| => ToInstant(date, events[k], offsetAt))
  }

  /** Consecutive pairs of boundaries as breaks of one type (`chunks(2)`). */
  function BreaksOf(inner: seq<OffsetDateTime>, typeId: string): (r: seq<NewBreak>)
    requires |inner| % 2 == 0
    ensures |r| == |inner| / 2
    ensures forall k :: 0 <= k < |r| ==> r[k] == NewBreak(typeId, inner[2 * k], inner[2 * k + 1])
  {
    seq(|inner| / 2, k requires 0 <= k < |inner| / 2 => NewBreak(typeId, inner[2 * k], inner[2 * k + 1]))
  }

  /** One more pair adds one more break at the end. */
  lemma {:induction false} BreaksOfStep(inner: seq<OffsetDateTime>, i: nat, typeId: string)
    requires i % 2 == 0 && i + 2 <= |inner|
    ensures BreaksOf(inner[..i + 2], typeId) == BreaksOf(inner[..i], typeId) + [NewBreak(typeId, inner[i], inner[i + 1])]
  {
    var a := BreaksOf(inner[..i + 2], typeId);
    var b := BreaksOf(inner[..i], typeId) + [NewBreak(typeId, inner[i], inner[i + 1])];
    assert |a| == |b|;
    forall k | 0 <= k < |a|
      ensures a[k] == b[k]
    {
      if k < i / 2 {
        assert inner[..i + 2][2 * k] == inner[..i][2 * k];
        assert inner[..i + 2][2 * k + 1] == inner[..i][2 * k + 1];
      }
    }
  }

  /** The flattened ranges with the statutory breaks spliced in. */
  function Boundaries(ranges: seq<TimeRange>): (events: seq<Time>)
    ensures |events| % 2 == 0
    ensures |events| == 0 <==> |ranges| == 0
  {
    SplicedPairs(Events(ranges));
    Spliced(Events(ranges))
  }

  /** The entry made of a boundary list: the outer boundaries are the shift, the inner pairs the breaks. */
  function Assembled(instants: seq<OffsetDateTime>, typeId: string): (p: Payload)
    requires |instants| >= 2 && |instants| % 2 == 0
    ensures |p.shifts| == 1 && p.shifts[0] == NewShift(instants[0], instants[|instants| - 1])
    ensures 2 * |p.breaks| + 2 == |instants| && p.source == "WEB"
    ensures forall k :: 0 <= k < |p.breaks| ==> p.breaks[k].breakTypeId == typeId
    ensures forall k :: 0 <= k < |p.breaks| ==> p.breaks[k] == NewBreak(typeId, instants[2 * k + 1], instants[2 * k + 2])
  {
    var inner := instants[1..|instants| - 1];
    var breaks := BreaksOf(inner, typeId);
    assert forall k :: 0 <= k < |breaks| ==> inner[2 * k] == instants[2 * k + 1] && inner[2 * k + 1] == instants[2 * k + 2];
    Payload([NewShift(instants[0], instants[|instants| - 1])], breaks, "WEB")
  }

  /**
   * The entry built once any check has passed: a panic at each `unwrap`
   * that can fail (an empty boundary list, the policy fetch, a policy
   * without a manual break type), and otherwise the assembled entry.
   */
  function Build(date: Date, ranges: seq<TimeRange>, policy: Result<BreakPolicy.Policy, ApiErrors.Error>, offsetAt: int -> int):
    (r: Outcome<Payload>)
    ensures r.Returned? <==> |ranges| > 0 && policy.Ok? && BreakPolicy.ManualBreakType(policy.value).Some?
    ensures r.Returned? ==> |r.value.shifts| == 1 && r.value.source == "WEB"
    ensures r.Returned? ==> forall k :: 0 <= k < |r.value.breaks| ==>
      r.value.breaks[k].breakTypeId == BreakPolicy.ManualBreakType(policy.value).value.id
  {
    var events := Boundaries(ranges);
    if |events| == 0 then Panicked("events.remove(0)")
    else if policy.Err? then Panicked("policy_thread.join().unwrap().unwrap()")
    else
      match BreakPolicy.ManualBreakType(policy.value)
      case None => Panicked("break_policy.manual_break_type().unwrap()")
      case Some(breakType) => Returned(Assembled(Instants(date, events, offsetAt), breakType.id))
  }

  /**
   * What `draft_entry` does up to the confirmation prompt: with `check`, a
   * failed workday check panics at its `unwrap` and a day that is not a
   * working day is refused; otherwise the entry is built.
   */
  function Draft(
    date: Date,
    ranges: seq<TimeRange>,
    check: bool,
    pto: Result<Workday.CheckOutcome, ApiErrors.Error>,
    policy: Result<BreakPolicy.Policy, ApiErrors.Error>,
    offsetAt: int -> int): (r: Outcome<Result<Payload, Commands.Error>>)
    ensures check && pto.Err? ==> r.Panicked?
    ensures check && pto.Ok? && !pto.value.WorkingDay? ==> r == Returned(Err(Commands.NoWorkingDay(pto.value)))
    ensures r.Returned? && r.value.Err? ==> check && pto.Ok? && !pto.value.WorkingDay?
    ensures !check || pto == Ok(Workday.WorkingDay) ==>
      (r.Returned? <==> Build(date, ranges, policy, offsetAt).Returned?) &&
      (r.Returned? ==> r.value == Ok(Build(date, ranges, policy, offsetAt).value))
  {
    if check && pto.Err? then Panicked("pto::check(date).unwrap()")
    else if check && !pto.value.WorkingDay? then Returned(Err(Commands.NoWorkingDay(pto.value)))
    else
      match Build(date, ranges, policy, offsetAt)
      case Panicked(site) => Panicked(site)
      case Returned(p) => Returned(Ok(p))
  }

  /**
   * The tail of `draft_entry` on the placed boundaries: `remove(0)` and
   * `pop()` take off the shift, then the policy is unwrapped and each
   * remaining pair is added as a break.
   */
  method BuildEntry(instants: seq<OffsetDateTime>, policy: Result<BreakPolicy.Policy, ApiErrors.Error>) returns (r: Outcome<Payload>)
    requires |instants| % 2 == 0
    ensures |instants| == 0 ==> r == Panicked("events.remove(0)")
    ensures |instants| > 0 && policy.Err? ==> r == Panicked("policy_thread.join().unwrap().unwrap()")
    ensures |instants| > 0 && policy.Ok? && BreakPolicy.ManualBreakType(policy.value).None? ==>
      r == Panicked("break_policy.manual_break_type().unwrap()")
    ensures |instants| > 0 && policy.Ok? && BreakPolicy.ManualBreakType(policy.value).Some? ==>
      r == Returned(Assembled(instants, BreakPolicy.ManualBreakType(policy.value).value.id))
  {
    var entry := new NewTimeEntry();
    if |instants| == 0 {
      return Panicked("events.remove(0)");
    }
    var rest := instants;
    var start := rest[0];
    rest := rest[1..];
    var end := rest[|rest| - 1];
    rest := rest[..|rest| - 1];
    assert rest == instants[1..|instants| - 1];
    entry.AddShift(start, end);
    if policy.Err? {
      return Panicked("policy_thread.join().unwrap().unwrap()");
    }
    var breakType := BreakPolicy.ManualBreakType(policy.value);
    if breakType.None? {
      return Panicked("break_policy.manual_break_type().unwrap()");
    }
    var typeId := breakType.value.id;
    var i := 0;
    while i < |rest|
      invariant 0 <= i <= |rest| && i % 2 == 0
      invariant entry.shifts == [NewShift(start, end)] && entry.source == "WEB"
      invariant entry.breaks == BreaksOf(rest[..i], typeId)
    {
      BreaksOfStep(rest, i, typeId);
      entry.AddBreak(typeId, rest[i], rest[i + 1]);
      i := i + 2;
    }
    assert rest[..i] == rest;
    r := Returned(entry.Value());
  }

  /**
   * `draft_entry`: flattens the ranges into boundaries, splices in the
   * statutory breaks, places the boundaries on the date and builds the entry.
   */
  method DraftEntry(
    date: Date,
    ranges: seq<TimeRange>,
    check: bool,
    pto: Result<Workday.CheckOutcome, ApiErrors.Error>,
    policy: Result<BreakPolicy.Policy, ApiErrors.Error>,
    offsetAt: int -> int) returns (r: Outcome<Result<Payload, Commands.Error>>)
    ensures r == Draft(date, ranges, check, pto, policy, offsetAt)
  {
    if check {
      if pto.Err? {
        return Panicked("pto::check(date).unwrap()");
      }
      if !pto.value.WorkingDay? {
        return Returned(Err(Commands.NoWorkingDay(pto.value)));
      }
    }
    var events: seq<Time> := [];
    for i := 0 to |ranges|
      invariant events == Events(ranges[..i])
    {
      EventsStep(ranges, i);
      events := events + [ranges[i].start, ranges[i].end];
    }
    assert ranges[..|ranges|] == ranges;
    events := SetupMinimumBreaks(events);
    assert events == Boundaries(ranges);
    var built := BuildEntry(Instants(date, events, offsetAt), policy);
    BuildAgrees(date, ranges, policy, offsetAt, built);
    r := match built
      case Panicked(site) => Panicked(site)
      case Returned(p) => Returned(Ok(p));
  }

  /** Whatever meets the contract of `BuildEntry` on the placed boundaries is what `Build` describes. */
  lemma BuildAgrees(date: Date, ranges: seq<TimeRange>, policy: Result<BreakPolicy.Policy, ApiErrors.Error>,
                    offsetAt: int -> int, built: Outcome<Payload>)
    requires var instants := Instants(date, Boundaries(ranges), offsetAt);
      (|instants| == 0 ==> built == Panicked("events.remove(0)")) &&
      (|instants| > 0 && policy.Err? ==> built == Panicked("policy_thread.join().unwrap().unwrap()")) &&
      (|instants| > 0 && policy.Ok? && BreakPolicy.ManualBreakType(policy.value).None? ==>
        built == Panicked("break_policy.manual_break_type().unwrap()")) &&
      (|instants| > 0 && policy.Ok? && BreakPolicy.ManualBreakType(policy.value).Some? ==>
        built == Returned(Assembled(instants, BreakPolicy.ManualBreakType(policy.value).value.id)))
    ensures built == Build(date, ranges, policy, offsetAt)
  {
  }

  /**
   * The shape of every built entry: one shift from the first range's start
   * to the last range's end, one break per gap between ranges plus one per
   * range that owes a statutory break, all of the manual break type.
   */
  lemma {:induction false} DraftShape(date: Date, ranges: seq<TimeRange>, policy: BreakPolicy.Policy, offsetAt: int -> int)
    requires |ranges| > 0 && BreakPolicy.ManualBreakType(policy).Some?
    ensures Build(date, ranges, Ok(policy), offsetAt).Returned?
    ensures var p := Build(date, ranges, Ok(policy), offsetAt).value;
      p.shifts == [NewShift(ToInstant(date, ranges[0].start, offsetAt), ToInstant(date, ranges[|ranges| - 1].end, offsetAt))] &&
      |p.breaks| == |ranges| - 1 + BreaksOwed(Events(ranges)) &&
      forall k :: 0 <= k < |p.breaks| ==> p.breaks[k].breakTypeId == BreakPolicy.ManualBreakType(policy).value.id
  {
    BuildAssembles(date, ranges, policy, offsetAt);
    PlacedShape(date, ranges, BreakPolicy.ManualBreakType(policy).value.id, offsetAt);
  }

  /** The shape of the entry assembled from the placed boundaries, whatever the break type. */
  lemma {:induction false} PlacedShape(date: Date, ranges: seq<TimeRange>, typeId: string, offsetAt: int -> int)
    requires |ranges| > 0
    ensures |Boundaries(ranges)| >= 2
    ensures var p := Assembled(Instants(date, Boundaries(ranges), offsetAt), typeId);
      p.shifts == [NewShift(ToInstant(date, ranges[0].start, offsetAt), ToInstant(date, ranges[|ranges| - 1].end, offsetAt))] &&
      |p.breaks| == |ranges| - 1 + BreaksOwed(Events(ranges)) &&
      forall k :: 0 <= k < |p.breaks| ==> p.breaks[k].breakTypeId == typeId
  {
    BoundaryEnds(ranges);
    var b := Boundaries(ranges);
    var instants := Instants(date, b, offsetAt);
    assert instants[0] == ToInstant(date, ranges[0].start, offsetAt);
    assert instants[|instants| - 1] == ToInstant(date, ranges[|ranges| - 1].end, offsetAt);
  }

  /**
   * The spliced boundaries run from the first range's start to the last
   * range's end, two per range and two more per owed break.
   */
  lemma BoundaryEnds(ranges: seq<TimeRange>)
    requires |ranges| > 0
    ensures var b := Boundaries(ranges);
      |b| == 2 * |ranges| + 2 * BreaksOwed(Events(ranges)) &&
      b[0] == ranges[0].start && b[|b| - 1] == ranges[|ranges| - 1].end
  {
    var events := Events(ranges);
    EventsEnds(ranges);
    SplicedLength(events);
    SplicedEnds(events);
  }

  /** The flattened ranges are a list of pairs from the first start to the last end. */
  lemma EventsEnds(ranges: seq<TimeRange>)
    requires |ranges| > 0
    ensures var e := Events(ranges);
      |e| % 2 == 0 && e[0] == ranges[0].start && e[|e| - 1] == ranges[|ranges| - 1].end
  {
    var n := |ranges|;
    EvenLength(|Events(ranges)|, n);
    EventAt(ranges, 0);
    EventAt(ranges, n - 1);
    assert |Events(ranges)| - 1 == 2 * (n - 1) + 1;
  }

  /** Once the check has passed, with a range and a manual break type, the entry is the assembled boundary list. */
  lemma {:induction false} BuildAssembles(date: Date, ranges: seq<TimeRange>, policy: BreakPolicy.Policy, offsetAt: int -> int)
    requires |ranges| > 0 && BreakPolicy.ManualBreakType(policy).Some?
    ensures |Boundaries(ranges)| >= 2
    ensures Build(date, ranges, Ok(policy), offsetAt) ==
      Returned(Assembled(Instants(date, Boundaries(ranges), offsetAt), BreakPolicy.ManualBreakType(policy).value.id))
  {
  }

  /**
   * When no range is long enough to owe a break, the breaks are exactly the
   * gaps between consecutive ranges: from the end of one to the start of
   * the next.
   */
  lemma {:induction false} GapsBecomeBreaks(date: Date, ranges: seq<TimeRange>, policy: BreakPolicy.Policy, offsetAt: int -> int)
    requires |ranges| > 0 && BreakPolicy.ManualBreakType(policy).Some?
    requires BreaksOwed(Events(ranges)) == 0
    ensures Build(date, ranges, Ok(policy), offsetAt).Returned?
    ensures var p := Build(date, ranges, Ok(policy), offsetAt).value;
      |p.breaks| == |ranges| - 1 &&
      forall k :: 0 <= k < |ranges| - 1 ==>
        p.breaks[k] == NewBreak(BreakPolicy.ManualBreakType(policy).value.id,
                                ToInstant(date, ranges[k].end, offsetAt), ToInstant(date, ranges[k + 1].start, offsetAt))
  {
    BuildAssembles(date, ranges, policy, offsetAt);
    PlacedGaps(date, ranges, BreakPolicy.ManualBreakType(policy).value.id, offsetAt);
  }

  /** With no break owed, the inner pairs of the placed boundaries are the gaps between ranges. */
  lemma {:induction false} PlacedGaps(date: Date, ranges: seq<TimeRange>, typeId: string, offsetAt: int -> int)
    requires |ranges| > 0
    requires BreaksOwed(Events(ranges)) == 0
    ensures |Boundaries(ranges)| >= 2
    ensures var p := Assembled(Instants(date, Boundaries(ranges), offsetAt), typeId);
      |p.breaks| == |ranges| - 1 &&
      forall k :: 0 <= k < |ranges| - 1 ==>
        p.breaks[k] == NewBreak(typeId, ToInstant(date, ranges[k].end, offsetAt), ToInstant(date, ranges[k + 1].start, offsetAt))
  {
    NothingOwed(Events(ranges));
    assert Boundaries(ranges) == Events(ranges);
    forall k | 0 <= k < |ranges| - 1
      ensures Assembled(Instants(date, Events(ranges), offsetAt), typeId).breaks[k] ==
        NewBreak(typeId, ToInstant(date, ranges[k].end, offsetAt), ToInstant(date, ranges[k + 1].start, offsetAt))
    {
      GapAt(date, ranges, typeId, offsetAt, k);
    }
  }

  /** Break `k` of the entry assembled from the flattened ranges spans the gap after range `k`. */
  lemma GapAt(date: Date, ranges: seq<TimeRange>, typeId: string, offsetAt: int -> int, k: nat)
    requires k + 1 < |ranges|
    ensures Assembled(Instants(date, Events(ranges), offsetAt), typeId).breaks[k] ==
      NewBreak(typeId, ToInstant(date, ranges[k].end, offsetAt), ToInstant(date, ranges[k + 1].start, offsetAt))
  {
    var events := Events(ranges);
    var instants := Instants(date, events, offsetAt);
    var inner := instants[1..|instants| - 1];
    assert Assembled(instants, typeId).breaks == BreaksOf(inner, typeId);
    assert inner[2 * k] == instants[2 * k + 1];
    assert inner[2 * k + 1] == instants[2 * k + 2];
    EventAt(ranges, k);
    EventAt(ranges, k + 1);
  }

  /**
   * With `--check`, a day that is not a working day is refused with its
   * outcome before anything is built, and a working day changes nothing.
   */
  lemma CheckedDayRefused(
    date: Date,
    ranges: seq<TimeRange>,
    pto: Result<Workday.CheckOutcome, ApiErrors.Error>,
    policy: Result<BreakPolicy.Policy, ApiErrors.Error>,
    offsetAt: int -> int)
    ensures pto.Ok? && !pto.value.WorkingDay? ==>
      Draft(date, ranges, true, pto, policy, offsetAt) == Returned(Err(Commands.NoWorkingDay(pto.value)))
    ensures pto == Ok(Workday.WorkingDay) ==>
      Draft(date, ranges, true, pto, policy, offsetAt) == Draft(date, ranges, false, pto, policy, offsetAt)
    ensures (Draft(date, ranges, true, pto, policy, offsetAt).Returned? &&
             Draft(date, ranges, true, pto, policy, offsetAt).value.Err?) ==> pto.Ok? && !pto.value.WorkingDay?
  {
  }

  /** Without `--check` the workday check plays no part: only the ranges, the policy and the offsets matter. */
  lemma UncheckedIgnoresCalendar(
    date: Date,
    ranges: seq<TimeRange>,
    pto: Result<Workday.CheckOutcome, ApiErrors.Error>,
    pto': Result<Workday.CheckOutcome, ApiErrors.Error>,
    policy: Result<BreakPolicy.Policy, ApiErrors.Error>,
    offsetAt: int -> int)
    ensures Draft(date, ranges, false, pto, policy, offsetAt) == Draft(date, ranges, false, pto', policy, offsetAt)
    ensures Draft(date, ranges, false, pto, policy, offsetAt).Returned? ==>
      Draft(date, ranges, false, pto, policy, offsetAt).value.Ok?
  {
  }

  /** No ranges at all panics at `events.remove(0)` once the check, if any, has passed. */
  lemma NoRangesPanics(
    date: Date,
    check: bool,
    pto: Result<Workday.CheckOutcome, ApiErrors.Error>,
    policy: Result<BreakPolicy.Policy, ApiErrors.Error>,
    offsetAt: int -> int)
    requires !check || pto == Ok(Workday.WorkingDay)
    ensures Draft(date, [], check, pto, policy, offsetAt) == Panicked("events.remove(0)")
  {
  }

  /** Checking New Year's Day 2023, a Sunday, refuses the entry as a weekend. */
  lemma NewYearRefused(
    ranges: seq<TimeRange>,
    requests: Result<seq<Workday.LeaveRequest>, ApiErrors.Error>,
    policy: Result<BreakPolicy.Policy, ApiErrors.Error>,
    offsetAt: int -> int)
    ensures var calendar := Ok([Workday.HolidaysOfYear(2023, [Workday.Holiday("New Year", "PUBLIC", 19358, 19358, false)])]);
      Draft(19358, ranges, true, Workday.Check(19358, calendar, requests), policy, offsetAt) ==
        Returned(Err(Commands.NoWorkingDay(Workday.Weekend(Sunday))))
  {
    Workday.NewYearOnSunday(requests);
  }

  /** 08:30-14:00 and 15:30-17:00: one shift 08:30-17:00 with the 14:00-15:30 gap as its only break. */
  lemma {:induction false} SplitDay(date: Date, policy: BreakPolicy.Policy, offsetAt: int -> int)
    requires BreakPolicy.ManualBreakType(policy).Some?
    ensures var ranges := [TimeRange(FromHm(8, 30), FromHm(14, 0)), TimeRange(FromHm(15, 30), FromHm(17, 0))];
      var typeId := BreakPolicy.ManualBreakType(policy).value.id;
      Build(date, ranges, Ok(policy), offsetAt) ==
        Returned(Payload([NewShift(ToInstant(date, FromHm(8, 30), offsetAt), ToInstant(date, FromHm(17, 0), offsetAt))],
                         [NewBreak(typeId, ToInstant(date, FromHm(14, 0), offsetAt), ToInstant(date, FromHm(15, 30), offsetAt))],
                         "WEB"))
  {
    var ranges := [TimeRange(FromHm(8, 30), FromHm(14, 0)), TimeRange(FromHm(15, 30), FromHm(17, 0))];
    var typeId := BreakPolicy.ManualBreakType(policy).value.id;
    SplitDayOwesNothing(ranges);
    GapsBecomeBreaks(date, ranges, policy, offsetAt);
    DraftShape(date, ranges, policy, offsetAt);
    BuildAssembles(date, ranges, policy, offsetAt);
    var p := Build(date, ranges, Ok(policy), offsetAt).value;
    assert p.source == "WEB";
    assert |p.breaks| == 1;
    assert p.breaks[0] == NewBreak(typeId, ToInstant(date, FromHm(14, 0), offsetAt), ToInstant(date, FromHm(15, 30), offsetAt));
    assert p.breaks == [p.breaks[0]];
  }

  /** Neither 5 h 30 nor 1 h 30 owes a statutory break. */
  lemma SplitDayOwesNothing(ranges: seq<TimeRange>)
    requires ranges == [TimeRange(FromHm(8, 30), FromHm(14, 0)), TimeRange(FromHm(15, 30), FromHm(17, 0))]
    ensures BreaksOwed(Events(ranges)) == 0
  {
    var events := Events(ranges);
    assert events == [FromHm(8, 30), FromHm(14, 0), FromHm(15, 30), FromHm(17, 0)];
    assert events[..2] == [FromHm(8, 30), FromHm(14, 0)];
    assert events[..2][..0] == [];
    assert BreaksOwed(events[..2]) == 0;
  }
}
