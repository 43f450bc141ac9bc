/** The outcomes of the recurrence engine: a value, or the exception Python would raise. */
module Results {

  /** The exceptions the modelled code can raise. */
  datatype Error =
    /** `ValueError` from the `datetime(year=..., month=..., day=...)` constructor:
        the fields do not name a calendar date. */
    | InvalidDate(year: int, month: int, day: int)
    /** `FileNotFoundError` from opening the holiday data file of `year`. */
    | MissingHolidayData(year: int)

  datatype Result<+T> = Ok(value: T) | Err(error: Error)

  datatype Option<+T> = None | Some(value: T)
}
