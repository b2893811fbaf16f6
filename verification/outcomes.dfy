/** Outcomes of the HTTP handlers: an optional value, the reasons a handler
    refuses a request (each an HTTP status), and a result carrying either a
    value or the reason. A refused request never changes any state: every
    handler commits all of its writes at once or none of them. */
module Outcomes {

  datatype Option<+T> = None | Some(value: T)

  /** Why a request was refused. The comment on each variant is the HTTP
      status the client sees. */
  datatype Reason =
    | Invalid(field: string, message: string)                    // 422, request body validation
    | SetupNameInUse(name: string)                               // 409
    | PlaylistNamesNotUnique                                     // 400
    | PlaylistsOverlap(first: string, second: string, day: string) // 400
    | PlaylistWithoutMedia(name: string)                         // 400
    | StartNotBeforeEnd(name: string)                            // 400
    | SetupNotFound(setup: int)                                  // 404
    | DeviceNotFound(device: int)                                // 404
    | NoClientAwaiting(code: int)                                // 404
    | DeviceNameInUse(name: string)                              // 409
    | DeviceOffline(device: int)                                 // 409
    | CodeUnavailable                                            // 400
    | MissingAttribute(attribute: string)                        // 500, uncaught AttributeError
    | IntegrityViolation                                         // 500, constraint rejected at commit

  /** The HTTP status code the client receives for a refusal. */
  function StatusCode(r: Reason): int
  {
    match r
    case Invalid(_, _) => 422
    case SetupNameInUse(_) => 409
    case PlaylistNamesNotUnique => 400
    case PlaylistsOverlap(_, _, _) => 400
    case PlaylistWithoutMedia(_) => 400
    case StartNotBeforeEnd(_) => 400
    case SetupNotFound(_) => 404
    case DeviceNotFound(_) => 404
    case NoClientAwaiting(_) => 404
    case DeviceNameInUse(_) => 409
    case DeviceOffline(_) => 409
    case CodeUnavailable => 400
    case MissingAttribute(_) => 500
    case IntegrityViolation => 500
  }

  /** A handler's answer: the new value (state, response) or the refusal. */
  datatype Result<+T> = Ok(value: T) | Err(reason: Reason)

  /** A validation step: it passes, or fails with the first reason found. */
  datatype Check = Pass | Fail(reason: Reason)
}
