/** The application error type of internal/pkg/apperror and the other kinds of
    Go `error` values the services return, with the mapping to an HTTP reply. */
module AppErrors {
  import opened Wrappers
  import Text

  /** The error codes of internal/pkg/apperror/codes.go. */
  datatype Code = NotFound | InvalidInput | InvalidState | InternalError | Unauthorized | Forbidden | Conflict

  function CodeText(c: Code): string
  {
    match c
    case NotFound => "NOT_FOUND"
    case InvalidInput => "INVALID_INPUT"
    case InvalidState => "INVALID_STATE"
    case InternalError => "INTERNAL_ERROR"
    case Unauthorized => "UNAUTHORIZED"
    case Forbidden => "FORBIDDEN"
    case Conflict => "CONFLICT"
  }

  /** A Go `error`:
      - App is an `*AppError` (code, user message, HTTP status, optional wrapped error);
      - Plain is any other error value with its text (`errors.New`, driver errors);
      - Wrapped is `fmt.Errorf(prefix + ": %w", inner)`. */
  datatype Error =
    | App(code: Code, message: string, httpStatus: int, err: Option<Error>)
    | Plain(text: string)
    | Wrapped(prefix: string, inner: Error)

  /** `Error()`; for an AppError the wrapped error's text wins over the message. */
  function ErrorText(e: Error): string
  {
    match e
    case App(_, m, _, err) => if err.Some? then ErrorText(err.value) else m
    case Plain(t) => t
    case Wrapped(p, inner) => p + ": " + ErrorText(inner)
  }

  /** `apperror.New`: an AppError with nothing wrapped, whose text is its message. */
  function New(code: Code, message: string, httpStatus: int): (e: Error)
    ensures e.App? && e.err.None?
    ensures ErrorText(e) == message
  {
    App(code, message, httpStatus, None)
  }

  /** `apperror.Wrap`: an AppError whose text is that of the error it wraps. */
  function Wrap(err: Error, code: Code, message: string, httpStatus: int): (e: Error)
    ensures e.App? && e.err == Some(err)
    ensures ErrorText(e) == ErrorText(err)
  {
    App(code, message, httpStatus, Some(err))
  }

  /** `sql.ErrNoRows`, the sentinel every repository lookup reports on a miss. */
  const ErrNoRows: Error := Plain("sql: no rows in result set")

  /** `errors.Is(e, sql.ErrNoRows)`: the sentinel itself or the sentinel under
      `%w` wrappers (AppError has no Unwrap method, so the chain stops there). */
  predicate IsNoRows(e: Error)
  {
    match e
    case Wrapped(_, inner) => IsNoRows(inner)
    case _ => e == ErrNoRows
  }

  /** The reply body `apperror.ToHTTP` builds; its Details is always nil. */
  datatype HttpError = HttpError(status: int, code: string, message: string)

  /** `apperror.ToHTTP` on a possibly nil error. */
  function ToHTTP(e: Option<Error>): (h: HttpError)
    ensures e.None? ==> h == HttpError(200, "", "")
    ensures e.Some? && e.value.App? ==>
      h == HttpError(e.value.httpStatus, CodeText(e.value.code), e.value.message)
    ensures e.Some? && !e.value.App? ==> h == HttpError(500, "INTERNAL_ERROR", "internal server error")
  {
    match e
    case None => HttpError(200, "", "")
    case Some(App(c, m, s, _)) => HttpError(s, CodeText(c), m)
    case Some(_) => HttpError(500, CodeText(InternalError), "internal server error")
  }

  /** An AppError keeps its own status through ToHTTP, but once it is wrapped
      with `fmt.Errorf` the type assertion no longer sees it and the reply is a 500. */
  lemma ToHTTPWrappedLosesStatus(prefix: string, c: Code, m: string, s: int)
    ensures ToHTTP(Some(New(c, m, s))).status == s
    ensures ToHTTP(Some(Wrapped(prefix, New(c, m, s)))).status == 500
  {
  }

  /** `apperror.InvalidField`. */
  function InvalidField(field: string): (e: Error)
    ensures e.App? && e.code == InvalidInput && e.httpStatus == 400 && e.err.None?
    ensures ErrorText(e) == field + " is invalid"
  {
    New(InvalidInput, field + " is invalid", 400)
  }

  /** `apperror.RequiredField`. */
  function RequiredField(field: string): (e: Error)
    ensures e.App? && e.code == InvalidInput && e.httpStatus == 400 && e.err.None?
    ensures ErrorText(e) == field + " is required"
  {
    New(InvalidInput, field + " is required", 400)
  }

  /** One entry of `validator.ValidationErrors`. */
  datatype FieldError = FieldError(field: string, tag: string)

  /** What `validator.Struct` reports when it rejects a value: its list of
      field errors, or some other error. */
  datatype ValidationFailure = FieldErrors(errs: seq<FieldError>) | OtherFailure(cause: Error)

  /** A field-error list from the validator is never empty. */
  predicate WellFormedFailure(v: ValidationFailure) { v.FieldErrors? ==> |v.errs| > 0 }

  /** `apperror.MapValidationError`: only the first field error is looked at. */
  function MapValidationError(v: ValidationFailure): (e: Error)
    requires WellFormedFailure(v)
    ensures ToHTTP(Some(e)) ==
      HttpError(400, "INVALID_INPUT",
        if v.OtherFailure? then "Invalid input"
        else Text.Lower(v.errs[0].field) + (if v.errs[0].tag == "required" then " is required" else " is invalid"))
  {
    match v
    case FieldErrors(errs) =>
      if errs[0].tag == "required" then RequiredField(Text.Lower(errs[0].field))
      else InvalidField(Text.Lower(errs[0].field))
    case OtherFailure(_) => New(InvalidInput, "Invalid input", 400)
  }

  /** Errors that only differ after the first field error map to the same reply. */
  lemma MapValidationErrorFirstOnly(f: FieldError, rest1: seq<FieldError>, rest2: seq<FieldError>)
    ensures MapValidationError(FieldErrors([f] + rest1)) == MapValidationError(FieldErrors([f] + rest2))
  {
  }
}
