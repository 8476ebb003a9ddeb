/** The HTTP envelope of the backend: the `ApiError` thrown by handlers
    (utils/apiError.js), the `ApiResponse` success body (utils/apiResponse.js)
    and the `asyncHandler` wrapper that turns a thrown error into a status code
    and a JSON body (utils/asynchandler.js). */
module Http {

  import opened Wrappers

  const OK := 200
  const Created := 201
  const BadRequest := 400
  const Unauthorized := 401
  const Forbidden := 403
  const NotFound := 404
  const InternalError := 500

  /** An `ApiError`: `success` is always false and `data` always null. */
  datatype ApiError = ApiError(statusCode: int, message: string, errors: seq<string>,
                               success: bool, data: Option<string>)

  /** `new ApiError(statusCode, message?, errors?)`; an absent argument takes its default. */
  function NewApiError(statusCode: int, message: Option<string>, errors: Option<seq<string>>): (e: ApiError)
    ensures e.statusCode == statusCode
    ensures message.Some? ==> e.message == message.value
    ensures message.None? ==> e.message == "Something went wrong"
    ensures errors.Some? ==> e.errors == errors.value
    ensures errors.None? ==> e.errors == []
    ensures !e.success && e.data.None?
  {
    ApiError(statusCode,
             match message case Some(m) => m case None => "Something went wrong",
             match errors case Some(es) => es case None => [],
             false, None)
  }

  /** An `ApiResponse`: note that its `statusCode` field holds the boolean
      `statusCode < 400`, not the code. */
  datatype ApiResponse<T> = ApiResponse(statusCode: bool, message: string, data: Option<T>)

  /** `new ApiResponse(statusCode, message?, data?)`. */
  function NewApiResponse<T>(statusCode: int, message: Option<string>, data: Option<T>): (r: ApiResponse<T>)
    ensures r.statusCode <==> statusCode < 400
    ensures message.Some? ==> r.message == message.value
    ensures message.None? ==> r.message == "sucess"
    ensures r.data == data
  {
    ApiResponse(statusCode < 400, match message case Some(m) => m case None => "sucess", data)
  }

  /** Whatever a handler may throw, seen through the three properties the
      wrapper reads. `statusCode` is `Some(n)` exactly when the thrown value has
      a `statusCode` that is an integer number; `message` is "" when absent;
      `code` is `None` when absent or falsy. */
  datatype Thrown = Thrown(statusCode: Option<int>, message: string, code: Option<string>)

  /** What the wrapper sends back: `{ success, message, error }` under a status. */
  datatype ErrorBody = ErrorBody(success: bool, message: string, error: Option<string>)
  datatype ErrorReply = ErrorReply(status: int, body: ErrorBody)

  /** How the wrapped handler ended. */
  datatype Outcome = Returned | Threw(err: Thrown)

  /** A thrown `ApiError` (it has no `code` property). */
  function FromApiError(e: ApiError): Thrown {
    Thrown(Some(e.statusCode), e.message, None)
  }

  function ReplyFor(e: Thrown): (r: ErrorReply)
    ensures !r.body.success && r.body.error == e.code
    ensures e.statusCode.Some? ==> r.status == e.statusCode.value
    ensures e.statusCode.None? ==> r.status == InternalError
    ensures e.message != "" ==> r.body.message == e.message
    ensures e.message == "" ==> r.body.message == "Internal Server Error"
  {
    ErrorReply(match e.statusCode case Some(c) => c case None => InternalError,
               ErrorBody(false, if e.message != "" then e.message else "Internal Server Error", e.code))
  }

  /** `asyncHandler(h)`: a handler that returns is left to answer for itself;
      a handler that throws is answered with `ReplyFor` the error. */
  function AsyncHandler(o: Outcome): (r: Option<ErrorReply>)
    ensures o.Returned? <==> r.None?
    ensures o.Threw? ==> r == Some(ReplyFor(o.err))
  {
    match o
    case Returned => None
    case Threw(e) => Some(ReplyFor(e))
  }

  /** An `ApiError` reaches the client with the status it was built with and,
      when it has one, its own message. */
  lemma ApiErrorReachesClient(statusCode: int, message: Option<string>, errors: Option<seq<string>>)
    ensures var r := AsyncHandler(Threw(FromApiError(NewApiError(statusCode, message, errors))));
      && r.Some? && r.value.status == statusCode && !r.value.body.success
      && r.value.body.error.None?
      && r.value.body.message == (match message
                                  case Some(m) => if m != "" then m else "Internal Server Error"
                                  case None => "Something went wrong")
  {
  }

  /** Anything thrown without an integer `statusCode` (a schema validation
      error, a `TypeError`, a failed token verification) becomes a 500. */
  lemma OtherErrorsAreInternal(e: Thrown)
    requires e.statusCode.None?
    ensures AsyncHandler(Threw(e)).Some? && AsyncHandler(Threw(e)).value.status == InternalError
  {
  }
}
