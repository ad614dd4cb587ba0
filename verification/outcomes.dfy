/** Outcomes of the request handlers: a value, a 400 rejection with a message,
    or an uncaught Python exception (a 500 reply). */
module Outcomes {

  datatype Option<T> = None | Some(value: T)

  /** The reasons a handler answers with status 400 and a human-readable message. */
  datatype Rejection =
    | MissingDate              // "Missing date parameter"
    | BadDateFormat            // "Incorrect date format, needs to be YYYY-MM-DD"
    | UnknownDoctor(doctorId: int)  // "Doctor {} does not exist"
    | BadAppointmentData       // "Invalid appointment data format"
    | BadTime                  // "Invalid time or time format" (a well-formed time off the quarter hour)
    | SlotFull(time: string)   // "Doctor has too many appointments at this time {}"

  /** The exceptions the handlers do not catch. */
  datatype Fault =
    | KeyMissing(key: string)  // KeyError on a record lookup
    | NotAnInteger             // int() applied to a value it cannot convert
    | TimeFormat               // ValueError raised by validate_time
    | ReplyHasNoJson           // `.json` read from the (message, 400) tuple of the day query

  datatype Error = Rejected(rejection: Rejection) | Crashed(fault: Fault)

  datatype Result<T> = Ok(value: T) | Err(error: Error)
}
