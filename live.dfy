/**
 * The clock commands of the newer front end: clocking out, starting and
 * ending a break. Each reads the current entry first and refuses the
 * transitions that make no sense in the state it finds. The server is the
 * inputs: the fetched list of open entries, the break policy lookup and the
 * response to each post.
 */
module Live {
  import opened Wrappers
  import opened TimeEntries
  import BreakPolicy
  import ApiErrors
  import opened Commands

  type Fetched<T> = Result<T, ApiErrors.Error>

  /** `clock_out`: stops the current entry, or reports that there is none. */
  function ClockOut(current: Fetched<seq<TimeEntry>>, respond: Request -> Fetched<TimeEntry>): (r: Run<(), Error>)
    ensures r.outcome.Returned?
    ensures current.Err? ==> r.sent == [] && r.outcome.value == Err(ApiError(current.error))
    ensures current.Ok? && |current.value| == 0 ==> r.sent == [] && r.outcome.value == Err(NotClockedIn)
    ensures current.Ok? && |current.value| > 0 ==>
      var req := PostStopClock(current.value[0].id);
      r.sent == [req] &&
      (r.outcome.value.Ok? <==> respond(req).Ok?) &&
      (respond(req).Err? ==> r.outcome.value == Err(ApiError(respond(req).error)))
  {
    match current
    case Err(e) => Run([], Returned(Err(ApiError(e))))
    case Ok(entries) =>
      match CurrentTimeEntry(entries)
      case None => Run([], Returned(Err(NotClockedIn)))
      case Some(entry) =>
        var req := PostStopClock(entry.id);
        match respond(req)
        case Err(e) => Run([req], Returned(Err(ApiError(e))))
        case Ok(_) => Run([req], Returned(Ok(())))
  }

  /**
   * `start_break`: only a clocked-in entry without an open break may start
   * one, booked as the policy's manual break type. The break the response
   * shows as open is what the command reports; a response without one makes
   * the `unwrap` panic.
   */
  function StartBreak(
    current: Fetched<seq<TimeEntry>>,
    fetchPolicy: string -> Fetched<BreakPolicy.Policy>,
    respond: Request -> Fetched<TimeEntry>): (r: Run<TimeEntryBreak, Error>)
    ensures current.Err? ==> r.sent == [] && r.outcome == Returned(Err(ApiError(current.error)))
    ensures current.Ok? && StateOf(current.value).ClockedOut? ==>
      r.sent == [] && r.outcome == Returned(Err(NotClockedIn))
    ensures current.Ok? && StateOf(current.value).OnBreak? ==>
      r.sent == [] && r.outcome == Returned(Err(AlreadyOnBreak))
    ensures current.Ok? && StateOf(current.value).ClockedIn? ==>
      var entry := StateOf(current.value).entry;
      var policy := fetchPolicy(entry.activePolicy.breakPolicyId);
      |r.sent| >= 1 && r.sent[0] == GetBreakPolicy(entry.activePolicy.breakPolicyId) &&
      (policy.Err? ==> r.sent == [r.sent[0]] && r.outcome == Returned(Err(ApiError(policy.error)))) &&
      (policy.Ok? && BreakPolicy.ManualBreakType(policy.value).None? ==>
        r.sent == [r.sent[0]] && r.outcome == Returned(Err(NoManualBreakType))) &&
      (policy.Ok? && BreakPolicy.ManualBreakType(policy.value).Some? ==>
        r.sent == [r.sent[0], PostStartBreak(entry.id, BreakPolicy.ManualBreakType(policy.value).value.id)])
    ensures (current.Ok? && StateOf(current.value).ClockedIn? &&
             fetchPolicy(StateOf(current.value).entry.activePolicy.breakPolicyId).Ok? &&
             BreakPolicy.ManualBreakType(fetchPolicy(StateOf(current.value).entry.activePolicy.breakPolicyId).value).Some?) ==>
      var res := respond(r.sent[1]);
      (res.Err? ==> r.outcome == Returned(Err(ApiError(res.error)))) &&
      (res.Ok? ==> (r.outcome.Panicked? <==> CurrentBreak(res.value).None?)) &&
      (res.Ok? && CurrentBreak(res.value).Some? ==> r.outcome == Returned(Ok(CurrentBreak(res.value).value)))
    ensures r.outcome.Returned? && r.outcome.value.Ok? ==> IsOpen(r.outcome.value.value)
    ensures r.outcome.Panicked? ==> exists res :: respond(r.sent[|r.sent| - 1]) == Ok(res) && CurrentBreak(res).None?
  {
    match current
    case Err(e) => Run([], Returned(Err(ApiError(e))))
    case Ok(entries) =>
      match StateOf(entries)
      case ClockedOut => Run([], Returned(Err(NotClockedIn)))
      case OnBreak(_, _) => Run([], Returned(Err(AlreadyOnBreak)))
      case ClockedIn(entry) =>
        var fetch := GetBreakPolicy(entry.activePolicy.breakPolicyId);
        match fetchPolicy(entry.activePolicy.breakPolicyId)
        case Err(e) => Run([fetch], Returned(Err(ApiError(e))))
        case Ok(policy) =>
          match BreakPolicy.ManualBreakType(policy)
          case None => Run([fetch], Returned(Err(NoManualBreakType)))
          case Some(breakType) =>
            var req := PostStartBreak(entry.id, breakType.id);
            match respond(req)
            case Err(e) => Run([fetch, req], Returned(Err(ApiError(e))))
            case Ok(res) =>
              match CurrentBreak(res)
              case None => Run([fetch, req], Panicked("entry.current_break().unwrap()"))
              case Some(brk) => Run([fetch, req], Returned(Ok(brk)))
  }

  /**
   * `end_break`: only an entry on a break may end it, and the request names
   * the open break's own type. The command reports the last break of the
   * response; an empty list is an unexpected response, and a last break
   * still without an end time makes the `end_time.unwrap()` panic.
   */
  function EndBreak(current: Fetched<seq<TimeEntry>>, respond: Request -> Fetched<TimeEntry>): (r: Run<TimeEntryBreak, Error>)
    ensures current.Err? ==> r.sent == [] && r.outcome == Returned(Err(ApiError(current.error)))
    ensures current.Ok? && StateOf(current.value).ClockedOut? ==>
      r.sent == [] && r.outcome == Returned(Err(NotClockedIn))
    ensures current.Ok? && StateOf(current.value).ClockedIn? ==>
      r.sent == [] && r.outcome == Returned(Err(NotOnBreak))
    ensures current.Ok? && StateOf(current.value).OnBreak? ==>
      r.sent == [PostEndBreak(StateOf(current.value).entry.id, StateOf(current.value).open.breakTypeId)]
    ensures r.sent != [] ==>
      var res := respond(r.sent[0]);
      (res.Err? ==> r.outcome == Returned(Err(ApiError(res.error)))) &&
      (res.Ok? && |res.value.breaks| == 0 ==> r.outcome == Returned(Err(UnexpectedResponse))) &&
      (res.Ok? && |res.value.breaks| > 0 ==>
        var last := res.value.breaks[|res.value.breaks| - 1];
        (r.outcome.Panicked? <==> IsOpen(last)) &&
        (!IsOpen(last) ==> r.outcome == Returned(Ok(last))))
  {
    match current
    case Err(e) => Run([], Returned(Err(ApiError(e))))
    case Ok(entries) =>
      match StateOf(entries)
      case ClockedOut => Run([], Returned(Err(NotClockedIn)))
      case ClockedIn(_) => Run([], Returned(Err(NotOnBreak)))
      case OnBreak(entry, open) =>
        var req := PostEndBreak(entry.id, open.breakTypeId);
        match respond(req)
        case Err(e) => Run([req], Returned(Err(ApiError(e))))
        case Ok(res) =>
          if |res.breaks| == 0 then Run([req], Returned(Err(UnexpectedResponse)))
          else
            var last := res.breaks[|res.breaks| - 1];
            if IsOpen(last) then Run([req], Panicked("brk.end_time.unwrap()"))
            else Run([req], Returned(Ok(last)))
  }

  /**
   * The guards, read across the three commands: a request to change the
   * clock goes out only from the state in which that change is legal, and
   * is aimed at the current entry.
   */
  lemma Guards(
    entries: seq<TimeEntry>,
    fetchPolicy: string -> Fetched<BreakPolicy.Policy>,
    respond: Request -> Fetched<TimeEntry>)
    ensures ClockOut(Ok(entries), respond).sent != [] ==>
      !StateOf(entries).ClockedOut? && ClockOut(Ok(entries), respond).sent == [PostStopClock(StateOf(entries).entry.id)]
    ensures StartBreak(Ok(entries), fetchPolicy, respond).sent != [] ==> StateOf(entries).ClockedIn?
    ensures EndBreak(Ok(entries), respond).sent != [] ==> StateOf(entries).OnBreak?
  {
  }

  /** The empty list of open entries means not clocked in, for every command and before any request. */
  lemma EmptyListIsClockedOut(
    fetchPolicy: string -> Fetched<BreakPolicy.Policy>,
    respond: Request -> Fetched<TimeEntry>)
    ensures ClockOut(Ok([]), respond) == Run([], Returned(Err(NotClockedIn)))
    ensures StartBreak(Ok([]), fetchPolicy, respond) == Run([], Returned(Err(NotClockedIn)))
    ensures EndBreak(Ok([]), respond) == Run([], Returned(Err(NotClockedIn)))
  {
  }
}
