/**
 * The clock commands of the older front end. The guards are those of the
 * newer one, but a refused break start carries the open break, clocking out
 * returns the stopped entry, and ending a break returns the last break of
 * the response as it is.
 */
module LegacyLive {
  import opened Wrappers
  import opened TimeEntries
  import BreakPolicy
  import ApiErrors
  import Commands
  import LegacyTimeEntries
  import opened LegacyCommands

  type Fetched<T> = Result<T, ApiErrors.Error>
  type Run<T> = Commands.Run<T, Error>

  /** `clock_out`: ends the current entry and returns the server's answer, or reports that there is none. */
  function ClockOut(current: Fetched<seq<TimeEntry>>, respond: Request -> Fetched<TimeEntry>): (r: Run<TimeEntry>)
    ensures r.outcome.Returned?
    ensures current.Err? ==> r.sent == [] && r.outcome.value == Err(ApiError(current.error))
    ensures current.Ok? && |current.value| == 0 ==> r.sent == [] && r.outcome.value == Err(NotClockedIn)
    ensures current.Ok? && |current.value| > 0 ==>
      var req := PostStopClock(current.value[0].id);
      r.sent == [req] &&
      (respond(req).Ok? ==> r.outcome.value == Ok(respond(req).value)) &&
      (respond(req).Err? ==> r.outcome.value == Err(ApiError(respond(req).error)))
  {
    match current
    case Err(e) => Commands.Run([], Returned(Err(ApiError(e))))
    case Ok(entries) =>
      match CurrentTimeEntry(entries)
      case None => Commands.Run([], Returned(Err(NotClockedIn)))
      case Some(entry) =>
        var req := PostStopClock(entry.id);
        match respond(req)
        case Err(e) => Commands.Run([req], Returned(Err(ApiError(e))))
        case Ok(res) => Commands.Run([req], Returned(Ok(res)))
  }

  /**
   * `start_break`: refused with the open break itself when already on one;
   * otherwise as in the newer front end, returning the break the response
   * shows as open and panicking at the `unwrap` when it shows none.
   */
  function StartBreak(
    current: Fetched<seq<TimeEntry>>,
    fetchPolicy: string -> Fetched<BreakPolicy.Policy>,
    respond: Request -> Fetched<TimeEntry>): (r: Run<TimeEntryBreak>)
    ensures current.Err? ==> r.sent == [] && r.outcome == Returned(Err(ApiError(current.error)))
    ensures current.Ok? && StateOf(current.value).ClockedOut? ==>
      r.sent == [] && r.outcome == Returned(Err(NotClockedIn))
    ensures current.Ok? && StateOf(current.value).OnBreak? ==>
      r.sent == [] && r.outcome == Returned(Err(AlreadyOnBreak(StateOf(current.value).open)))
    ensures current.Ok? && StateOf(current.value).ClockedIn? ==>
      var entry := StateOf(current.value).entry;
      var policy := fetchPolicy(entry.activePolicy.breakPolicyId);
      |r.sent| >= 1 && r.sent[0] == GetBreakPolicy(entry.activePolicy.breakPolicyId) &&
      (policy.Err? ==> r.sent == [r.sent[0]] && r.outcome == Returned(Err(ApiError(policy.error)))) &&
      (policy.Ok? && BreakPolicy.ManualBreakType(policy.value).None? ==>
        r.sent == [r.sent[0]] && r.outcome == Returned(Err(NoManualBreakType))) &&
      (policy.Ok? && BreakPolicy.ManualBreakType(policy.value).Some? ==>
        r.sent == [r.sent[0], PostStartBreak(entry.id, BreakPolicy.ManualBreakType(policy.value).value.id)])
    ensures (current.Ok? && StateOf(current.value).ClockedIn? &&
             fetchPolicy(StateOf(current.value).entry.activePolicy.breakPolicyId).Ok? &&
             BreakPolicy.ManualBreakType(fetchPolicy(StateOf(current.value).entry.activePolicy.breakPolicyId).value).Some?) ==>
      var res := respond(r.sent[1]);
      (res.Err? ==> r.outcome == Returned(Err(ApiError(res.error)))) &&
      (res.Ok? ==> (r.outcome.Panicked? <==> CurrentBreak(res.value).None?)) &&
      (res.Ok? && CurrentBreak(res.value).Some? ==> r.outcome == Returned(Ok(CurrentBreak(res.value).value)))
    ensures r.outcome.Returned? && r.outcome.value.Ok? ==> IsOpen(r.outcome.value.value)
    ensures r.outcome.Panicked? ==> exists res :: respond(r.sent[|r.sent| - 1]) == Ok(res) && CurrentBreak(res).None?
  {
    match current
    case Err(e) => Commands.Run([], Returned(Err(ApiError(e))))
    case Ok(entries) =>
      match StateOf(entries)
      case ClockedOut => Commands.Run([], Returned(Err(NotClockedIn)))
      case OnBreak(_, open) => Commands.Run([], Returned(Err(AlreadyOnBreak(open))))
      case ClockedIn(entry) =>
        var fetch := GetBreakPolicy(entry.activePolicy.breakPolicyId);
        match fetchPolicy(entry.activePolicy.breakPolicyId)
        case Err(e) => Commands.Run([fetch], Returned(Err(ApiError(e))))
        case Ok(policy) =>
          match BreakPolicy.ManualBreakType(policy)
          case None => Commands.Run([fetch], Returned(Err(NoManualBreakType)))
          case Some(breakType) =>
            var req := PostStartBreak(entry.id, breakType.id);
            match respond(req)
            case Err(e) => Commands.Run([fetch, req], Returned(Err(ApiError(e))))
            case Ok(res) =>
              match CurrentBreak(res)
              case None => Commands.Run([fetch, req], Panicked("entry.current_break().unwrap()"))
              case Some(brk) => Commands.Run([fetch, req], Returned(Ok(brk)))
  }

  /**
   * `end_break`: only an entry on a break may end it, with the open break's
   * own type; the last break of the response is returned whatever its end
   * time, and an empty list is an unexpected response.
   */
  function EndBreak(current: Fetched<seq<TimeEntry>>, respond: Request -> Fetched<TimeEntry>): (r: Run<TimeEntryBreak>)
    ensures r.outcome.Returned?
    ensures current.Err? ==> r.sent == [] && r.outcome.value == Err(ApiError(current.error))
    ensures current.Ok? && StateOf(current.value).ClockedOut? ==>
      r.sent == [] && r.outcome.value == Err(NotClockedIn)
    ensures current.Ok? && StateOf(current.value).ClockedIn? ==>
      r.sent == [] && r.outcome.value == Err(NotOnBreak)
    ensures current.Ok? && StateOf(current.value).OnBreak? ==>
      r.sent == [PostEndBreak(StateOf(current.value).entry.id, StateOf(current.value).open.breakTypeId)]
    ensures r.sent != [] ==>
      var res := respond(r.sent[0]);
      (res.Err? ==> r.outcome.value == Err(ApiError(res.error))) &&
      (res.Ok? && |res.value.breaks| == 0 ==> r.outcome.value == Err(UnexpectedResponse)) &&
      (res.Ok? && |res.value.breaks| > 0 ==> r.outcome.value == Ok(res.value.breaks[|res.value.breaks| - 1]))
  {
    match current
    case Err(e) => Commands.Run([], Returned(Err(ApiError(e))))
    case Ok(entries) =>
      match StateOf(entries)
      case ClockedOut => Commands.Run([], Returned(Err(NotClockedIn)))
      case ClockedIn(_) => Commands.Run([], Returned(Err(NotOnBreak)))
      case OnBreak(entry, open) =>
        var req := PostEndBreak(entry.id, open.breakTypeId);
        match respond(req)
        case Err(e) => Commands.Run([req], Returned(Err(ApiError(e))))
        case Ok(res) =>
          if |res.breaks| == 0 then Commands.Run([req], Returned(Err(UnexpectedResponse)))
          else Commands.Run([req], Returned(Ok(res.breaks[|res.breaks| - 1])))
  }

  /** With an empty list of open entries, starting a break is refused as not clocked in, and nothing is sent. */
  lemma StartBreakWhenNotClockedIn(
    fetchPolicy: string -> Fetched<BreakPolicy.Policy>,
    respond: Request -> Fetched<TimeEntry>)
    ensures StartBreak(Ok([]), fetchPolicy, respond) == Commands.Run([], Returned(Err(NotClockedIn)))
  {
  }

  /**
   * The older client posts a break start to the `end_break` endpoint, so a
   * server that follows its own endpoint names answers without an open
   * break, and the command panics at the `unwrap` whenever it gets that far.
   */
  lemma StartBreakReachesEndBreak(
    entries: seq<TimeEntry>,
    fetchPolicy: string -> Fetched<BreakPolicy.Policy>,
    respond: Request -> Fetched<TimeEntry>)
    requires forall req :: respond(req).Ok? && (req.PostStartBreak? || req.PostEndBreak?) ==>
      (CurrentBreak(respond(req).value).Some? <==>
       LegacyTimeEntries.LegacyPath(req) == Path(PostStartBreak(req.entryId, req.breakTypeId)))
    requires StateOf(entries).ClockedIn?
    requires fetchPolicy(StateOf(entries).entry.activePolicy.breakPolicyId).Ok?
    requires BreakPolicy.ManualBreakType(fetchPolicy(StateOf(entries).entry.activePolicy.breakPolicyId).value).Some?
    requires respond(StartBreak(Ok(entries), fetchPolicy, respond).sent[1]).Ok?
    ensures StartBreak(Ok(entries), fetchPolicy, respond).outcome.Panicked?
  {
    var r := StartBreak(Ok(entries), fetchPolicy, respond);
    var req := r.sent[1];
    LegacyTimeEntries.SwappedBreakPaths(req.entryId, req.breakTypeId);
  }
}
