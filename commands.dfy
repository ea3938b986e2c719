/** The errors the newer command-line front end reports, and the record of one command's run. */
module Commands {
  import opened Wrappers
  import ApiErrors
  import Workday
  import TimeEntries

  /** The command errors; the front end raises `AlreadyOnBreak` without the open break. */
  datatype Error =
    | ApiError(cause: ApiErrors.Error)
    | AlreadyOnBreak
    | NotClockedIn
    | NotOnBreak
    | NoManualBreakType
    | UnexpectedResponse
    | NoWorkingDay(outcome: Workday.CheckOutcome)

  /**
   * What a command did: the requests it sent after reading the current entry,
   * in order, and how it ended (a value, a command error, or a panic).
   */
  datatype Run<+T, +E> = Run(sent: seq<TimeEntries.Request>, outcome: Outcome<Result<T, E>>)
}
