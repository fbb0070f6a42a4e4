/** Option and Result, as the rest of the model uses them. */
module Wrappers {

  datatype Option<+T> = None | Some(value: T)

  datatype Result<+T, +E> = Ok(value: T) | Err(error: E)
}

/**
 * The outcomes a request can end in besides success, as Django REST
 * framework reports them (serializers.ValidationError, NotAuthenticated,
 * PermissionDenied, Http404) plus a failing mail server (send_mail with
 * fail_silently=False raises).
 */
module Errors {

  datatype ApiError = ValidationError | NotAuthenticated | PermissionDenied | NotFound | DeliveryFailed

  /** The HTTP status each outcome is answered with. */
  function StatusOf(e: ApiError): (code: nat)
    ensures 400 <= code < 600
    ensures code == 400 <==> e == ValidationError
    ensures code == 404 <==> e == NotFound
  {
    match e
    case ValidationError => 400
    case NotAuthenticated => 401
    case PermissionDenied => 403
    case NotFound => 404
    case DeliveryFailed => 500
  }
}
