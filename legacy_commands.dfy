/** The errors the older command-line front end reports. */
module LegacyCommands {
  import ApiErrors
  import TimeEntries

  /** The command errors; a refused break start carries the break that is already open. */
  datatype Error =
    | ApiError(cause: ApiErrors.Error)
    | AlreadyOnBreak(open: TimeEntries.TimeEntryBreak)
    | NotClockedIn
    | NotOnBreak
    | NoManualBreakType
    | UnexpectedResponse
}
