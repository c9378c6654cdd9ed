/** Values shared by every component: optional values, results, and the
    Python exceptions the modelled code raises. */
module Common {

  datatype Option<+T> = None | Some(value: T)

  /** A Python call either returns a value or raises an exception. */
  datatype Result<+T> = Ok(value: T) | Err(error: Error)

  /** The exceptions (and the `exit()` call) that the modelled code can reach. */
  datatype Error =
    | ValueError(msg: string)      // configuration errors, and `time.sleep` of a negative length
    | KeyError(key: string)        // a missing dictionary key
    | TypeError                    // arithmetic or conversion on None
    | IndexError                   // an empty list indexed at 0
    | RemoteError(status: int)     // `raise Exception(...)` after a non-200 reply
    | ConnectionError              // a connection or device update that failed, or a dropped connection
    | ServerError                  // a statement the database server refused
    | OverflowError                // a `timedelta` beyond its range of days
    | SinkError                    // a write to a usage sink that raised
    | Exit                         // the SystemExit `exit()` raises after a failed token exchange

  /** The text Python's `str()` gives an optional text value: `None` becomes "None". */
  function PyStr(o: Option<string>): (r: string)
    ensures o.Some? ==> r == o.value
    ensures o.None? ==> r == "None"
  {
    match o
    case Some(s) => s
    case None => "None"
  }
}
