/**
 * The endpoints the older client posts its clock actions to. Entries, breaks,
 * the open-break lookup and break durations read the same in both clients and
 * are the ones in `TimeEntries`; only the paths differ.
 */
module LegacyTimeEntries {
  import opened TimeEntries

  /**
   * The endpoint each request of the older client goes to, as written:
   * starting a break posts to `end_break` and ending one to `start_break`.
   */
  function LegacyPath(r: Request): (s: string)
    ensures r.PostStartBreak? ==> s == Path(PostEndBreak(r.entryId, r.breakTypeId))
    ensures r.PostEndBreak? ==> s == Path(PostStartBreak(r.entryId, r.breakTypeId))
    ensures !r.PostStartBreak? && !r.PostEndBreak? ==> s == Path(r)
  {
    match r
    case GetBreakPolicy(id) => BREAK_POLICIES_PATH + "/" + id
    case PostStartBreak(id, _) => ENTRIES_PATH + "/" + id + "/end_break"
    case PostEndBreak(id, _) => ENTRIES_PATH + "/" + id + "/start_break"
    case PostStopClock(id) => ENTRIES_PATH + "/" + id + "/stop_clock"
  }

  /**
   * The two break actions of the older client reach each other's endpoint:
   * for every entry id, starting a break is sent where ending one belongs
   * and the other way round, while clocking out and the policy lookup go
   * where they should.
   */
  lemma SwappedBreakPaths(id: string, breakType: string)
    ensures LegacyPath(PostStartBreak(id, breakType)) == Path(PostEndBreak(id, breakType))
    ensures LegacyPath(PostStartBreak(id, breakType)) != Path(PostStartBreak(id, breakType))
    ensures LegacyPath(PostEndBreak(id, breakType)) == Path(PostStartBreak(id, breakType))
    ensures LegacyPath(PostEndBreak(id, breakType)) != Path(PostEndBreak(id, breakType))
    ensures LegacyPath(PostStopClock(id)) == Path(PostStopClock(id))
    ensures LegacyPath(GetBreakPolicy(id)) == Path(GetBreakPolicy(id))
  {
    ActionPaths(id);
  }
}
