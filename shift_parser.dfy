/**
 * The shift-range argument `H[:MM]-H[:MM]` (`parse_input_shifts`), in both
 * revisions. The regular expression `^\d{1,2}(:\d{2})?-\d{1,2}(:\d{2})?$` is
 * modelled as a recogniser, `MatchRange`, that is proved to accept exactly the
 * strings the grammar spells.
 */
module ShiftParser {
  import opened Wrappers
  import opened Clock

  /** A user-entered work interval of one day (`TimeRange`, `InputShift`). */
  datatype TimeRange = TimeRange(start: Time, end: Time)

  /** The message shown when the argument does not match the grammar. */
  const RANGE_HINT: string := "Shifts must be a range, for example 8:30-17:15"
  /** The older revision's message for a matching argument with an impossible hour or minute. */
  const INVALID_TIME: string := "Invalid time format"

  /** The captured text of one side of the range: hour digits and optional minute digits. */
  datatype ClockText = ClockText(hour: string, minute: Option<string>)

  /** `\d{1,2}(:\d{2})?`, as captures. */
  predicate WellFormed(c: ClockText) {
    1 <= |c.hour| <= 2 && AllDigits(c.hour) &&
    (c.minute.Some? ==> |c.minute.value| == 2 && AllDigits(c.minute.value))
  }

  /** The text a side of the range is written as. */
  function Spell(c: ClockText): string {
    c.hour + if c.minute.Some? then ":" + c.minute.value else ""
  }

  /** Recognises one side of the range. */
  function MatchClock(s: string): (r: Option<ClockText>)
    ensures r.Some? ==> WellFormed(r.value) && Spell(r.value) == s
  {
    if 1 <= |s| <= 2 && AllDigits(s) then
      Some(ClockText(s, None))
    else if 4 <= |s| <= 5 && s[|s| - 3] == ':' && AllDigits(s[..|s| - 3]) && AllDigits(s[|s| - 2..]) then
      assert s == s[..|s| - 3] + ":" + s[|s| - 2..];
      Some(ClockText(s[..|s| - 3], Some(s[|s| - 2..])))
    else
      None
  }

  /** The position of the first `-`, or the length when there is none. */
  function DashAt(s: string): (k: nat)
    ensures k <= |s| && (k < |s| ==> s[k] == '-')
    ensures forall j :: 0 <= j < k ==> s[j] != '-'
  {
    if s == [] then 0
    else if s[0] == '-' then 0
    else 1 + DashAt(s[1..])
  }

  /** Recognises the whole argument, splitting at its first `-`. */
  function MatchRange(s: string): (r: Option<(ClockText, ClockText)>)
    ensures r.Some? ==> WellFormed(r.value.0) && WellFormed(r.value.1) && s == Spell(r.value.0) + "-" + Spell(r.value.1)
  {
    var k := DashAt(s);
    if k == |s| then None
    else
      match (MatchClock(s[..k]), MatchClock(s[k + 1..]))
      case (Some(a), Some(b)) =>
        assert s == s[..k] + "-" + s[k + 1..];
        Some((a, b))
      case _ => None
  }

  /** Hour and minute of a matched side; missing minutes are 0. */
  function HourOf(c: ClockText): nat
    requires WellFormed(c)
  {
    DecimalValue(c.hour)
  }

  function MinuteOf(c: ClockText): nat
    requires WellFormed(c)
  {
    if c.minute.Some? then DecimalValue(c.minute.value) else 0
  }

  predicate ValidClock(c: ClockText)
    requires WellFormed(c)
  {
    HourOf(c) < 24 && MinuteOf(c) < 60
  }

  function TimeOfClock(c: ClockText): Time
    requires WellFormed(c) && ValidClock(c)
  {
    FromHm(HourOf(c), MinuteOf(c))
  }

  /**
   * `parse_input_shifts`, newer revision: a non-matching argument is the
   * hint; a matching one with an hour above 23 or a minute above 59 reaches
   * `Time::from_hms(..).unwrap()` and aborts.
   */
  function ParseInputShifts(s: string): (r: Outcome<Result<TimeRange, string>>)
    ensures MatchRange(s).None? <==> r == Returned(Err(RANGE_HINT))
    ensures r.Returned? && r.value.Ok? ==>
      var (a, b) := MatchRange(s).value;
      ValidClock(a) && ValidClock(b) && r.value.value == TimeRange(TimeOfClock(a), TimeOfClock(b))
    ensures r.Panicked? <==> MatchRange(s).Some? && !(ValidClock(MatchRange(s).value.0) && ValidClock(MatchRange(s).value.1))
    ensures MatchRange(s).Some? && ValidClock(MatchRange(s).value.0) && ValidClock(MatchRange(s).value.1) ==>
      r.Returned? && r.value.Ok?
  {
    match MatchRange(s)
    case None => Returned(Err(RANGE_HINT))
    case Some((a, b)) =>
      if !ValidClock(a) then Panicked("Time::from_hms(..).unwrap() on the start")
      else if !ValidClock(b) then Panicked("Time::from_hms(..).unwrap() on the end")
      else Returned(Ok(TimeRange(TimeOfClock(a), TimeOfClock(b))))
  }

  /**
   * `parse_input_shifts`, older revision: the same grammar, but an impossible
   * hour or minute is reported as `Invalid time format` instead of aborting.
   */
  function LegacyParseInputShifts(s: string): (r: Result<TimeRange, string>)
    ensures r.Err? <==> MatchRange(s).None? || !(ValidClock(MatchRange(s).value.0) && ValidClock(MatchRange(s).value.1))
    ensures r.Err? ==> r.error == (if MatchRange(s).None? then RANGE_HINT else INVALID_TIME)
    ensures r.Ok? ==> r.value == TimeRange(TimeOfClock(MatchRange(s).value.0), TimeOfClock(MatchRange(s).value.1))
  {
    match MatchRange(s)
    case None => Err(RANGE_HINT)
    case Some((a, b)) =>
      if !ValidClock(a) then Err(INVALID_TIME)
      else if !ValidClock(b) then Err(INVALID_TIME)
      else Ok(TimeRange(TimeOfClock(a), TimeOfClock(b)))
  }

  /** The two revisions agree on every argument the newer one does not abort on. */
  lemma RevisionsAgree(s: string)
    ensures ParseInputShifts(s).Returned? ==> ParseInputShifts(s).value == LegacyParseInputShifts(s)
    ensures ParseInputShifts(s).Panicked? <==> LegacyParseInputShifts(s) == Err(INVALID_TIME)
  {
  }

  /** Every spelling the grammar allows for one side is recognised, with its captures. */
  lemma MatchClockComplete(c: ClockText)
    requires WellFormed(c)
    ensures MatchClock(Spell(c)) == Some(c)
  {
    var s := Spell(c);
    if c.minute.Some? {
      assert s == c.hour + ":" + c.minute.value;
      assert s[|s| - 3] == ':';
      assert s[..|s| - 3] == c.hour;
      assert s[|s| - 2..] == c.minute.value;
      assert ClockText(s[..|s| - 3], Some(s[|s| - 2..])) == c;
    } else {
      assert s == c.hour;
    }
  }

  /** A written side never contains `-`. */
  lemma NoDashInSpelling(c: ClockText)
    requires WellFormed(c)
    ensures forall j :: 0 <= j < |Spell(c)| ==> Spell(c)[j] != '-'
  {
  }

  /** The position of the dash after a dash-free prefix. */
  lemma {:induction false} DashAfterPrefix(p: string, rest: string)
    requires forall j :: 0 <= j < |p| ==> p[j] != '-'
    ensures DashAt(p + "-" + rest) == |p|
    decreases |p|
  {
    if p != [] {
      assert (p + "-" + rest)[1..] == p[1..] + "-" + rest;
      DashAfterPrefix(p[1..], rest);
    }
  }

  /**
   * Completeness of the recogniser: every string the grammar spells is
   * matched, with the captures it was spelled from. With the ensures of
   * `MatchRange` this makes the accepted language exactly the grammar's.
   */
  lemma MatchRangeComplete(a: ClockText, b: ClockText)
    requires WellFormed(a) && WellFormed(b)
    ensures MatchRange(Spell(a) + "-" + Spell(b)) == Some((a, b))
  {
    var s := Spell(a) + "-" + Spell(b);
    NoDashInSpelling(a);
    DashAfterPrefix(Spell(a), Spell(b));
    assert s[..|Spell(a)|] == Spell(a);
    assert s[|Spell(a)| + 1..] == Spell(b);
    MatchClockComplete(a);
    MatchClockComplete(b);
  }

  /** `H:MM` with the hour unpadded, as in the hint `8:30-17:15`. */
  function ClockSpelling(t: Time): ClockText
    requires t % MINUTE == 0
  {
    var minutes := t / MINUTE;
    ClockText(NatToString(minutes / 60), Some(TwoDigits(minutes % 60)))
  }

  /** The argument a user would type for a range. */
  function Format(r: TimeRange): string
    requires r.start % MINUTE == 0 && r.end % MINUTE == 0
  {
    Spell(ClockSpelling(r.start)) + "-" + Spell(ClockSpelling(r.end))
  }

  /** A number below 100 is written with one or two digits. */
  lemma SmallNumberLength(n: nat)
    requires n < 100
    ensures 1 <= |NatToString(n)| <= 2
  {
    if n >= 10 {
      assert |NatToString(n / 10)| == 1;
    }
  }

  lemma ClockSpellingRoundTrip(t: Time)
    requires t % MINUTE == 0
    ensures WellFormed(ClockSpelling(t)) && ValidClock(ClockSpelling(t)) && TimeOfClock(ClockSpelling(t)) == t
  {
    var minutes := t / MINUTE;
    assert minutes < 1440;
    SmallNumberLength(minutes / 60);
    assert FromHm(minutes / 60, minutes % 60) == 60 * (60 * (minutes / 60) + minutes % 60);
  }

  /** Round trip: a whole-minute range, written as `H:MM-H:MM`, parses back to itself in both revisions. */
  lemma ParseFormat(r: TimeRange)
    requires r.start % MINUTE == 0 && r.end % MINUTE == 0
    ensures ParseInputShifts(Format(r)) == Returned(Ok(r))
    ensures LegacyParseInputShifts(Format(r)) == Ok(r)
  {
    ClockSpellingRoundTrip(r.start);
    ClockSpellingRoundTrip(r.end);
    MatchRangeComplete(ClockSpelling(r.start), ClockSpelling(r.end));
  }

  /** Minutes may be left out on either side and then count as `:00`. */
  lemma MinutesDefaultToZero(h1: string, h2: string)
    requires 1 <= |h1| <= 2 && AllDigits(h1) && DecimalValue(h1) < 24
    requires 1 <= |h2| <= 2 && AllDigits(h2) && DecimalValue(h2) < 24
    ensures ParseInputShifts(h1 + "-" + h2) == Returned(Ok(TimeRange(FromHm(DecimalValue(h1), 0), FromHm(DecimalValue(h2), 0))))
  {
    MatchRangeComplete(ClockText(h1, None), ClockText(h2, None));
  }

  /** `8-` is not a range. */
  lemma MissingEnd()
    ensures ParseInputShifts("8-") == Returned(Err(RANGE_HINT))
    ensures LegacyParseInputShifts("8-") == Err(RANGE_HINT)
  {
    assert DashAt("8-"[1..]) == 0;
    assert DashAt("8-") == 1;
    assert "8-"[2..] == "";
    assert MatchClock("") == None;
  }

  /** `25:00-26:00` matches the grammar but names no time of day. */
  lemma HourOutOfRange()
    ensures ParseInputShifts("25:00" + "-" + "26:00").Panicked?
    ensures LegacyParseInputShifts("25:00" + "-" + "26:00") == Err(INVALID_TIME)
  {
    var a, b := ClockText("25", Some("00")), ClockText("26", Some("00"));
    assert WellFormed(a) && WellFormed(b);
    MatchRangeComplete(a, b);
    assert Spell(a) == "25:00" && Spell(b) == "26:00";
    assert "25"[..1] == "2" && "2"[..0] == [];
    assert HourOf(a) == 25;
  }
}
