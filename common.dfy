/** Identifiers, optional values and the error taxonomy shared by every controller. */
module Common {

  /** A document id. The store hands out ObjectIds; the model only needs them to be comparable. */
  type Id = nat

  datatype Option<T> = None | Some(value: T)

  /** The failures a controller answers with instead of its normal response. */
  datatype Error =
    | NotFound                            // 404
    | InsufficientStock(productName: string) // 400 "Not enough stock for ..."
    | InvalidInput                        // 400 "Invalid status"
    | InvalidCredentials                  // 400 "Invalid credentials"
    | Unauthorized                        // 401 "Access token missing"
    | Forbidden                           // 403
    | ValidationFailed                    // a schema validator rejects a save: caught, answered with 500
    | Unexpected                          // any other exception caught by the controller: 500

  datatype Result<T> = Ok(value: T) | Err(error: Error)

  /** What a middleware does with a request: pass it on with `next()`, or answer it with an error. */
  datatype Step = Next | Respond(error: Error)

  /** The HTTP status each error is answered with. */
  function StatusCode(e: Error): (code: nat)
    ensures 400 <= code < 600
    ensures code == 500 <==> e.ValidationFailed? || e.Unexpected?
  {
    match e
    case NotFound => 404
    case InsufficientStock(_) => 400
    case InvalidInput => 400
    case InvalidCredentials => 400
    case Unauthorized => 401
    case Forbidden => 403
    case ValidationFailed => 500
    case Unexpected => 500
  }
}
