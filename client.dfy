/** UserApiClient: how one HTTP exchange is turned into a value, a null, or
    one of the two exceptions the client throws. The HTTP stack is abstracted
    as a function from the relative request path to the outcome of the GET. */
module Client {
  import opened Prelude
  import opened Text
  import opened Models

  /** InvalidOperationException and TimeoutException with their messages. */
  datatype ClientError = InvalidOperation(message: string) | Timeout(message: string)

  /** What reading and deserializing the body produced: an envelope (None
      for the JSON literal null), or a JsonException. */
  datatype Body<E> = Decoded(envelope: Option<E>) | Malformed

  /** The outcome of one GET as the client sees it (after any retries):
      a response with a status code and a body, an HttpRequestException, or
      a TaskCanceledException (time-out or cancellation alike). */
  datatype Transport<E> =
    | Response(status: int, body: Body<E>)
    | RequestError(message: string)
    | Canceled

  /** The HTTP stack: relative path -> outcome. */
  type HttpGet<E> = string -> Transport<E>

  const NotFound := 404

  /** HttpResponseMessage.IsSuccessStatusCode, the test of EnsureSuccessStatusCode. */
  predicate IsSuccessStatus(code: int)
  {
    200 <= code <= 299
  }

  function UserPath(id: int): string
  {
    "users/" + IntToString(id)
  }

  function PagePath(page: int): string
  {
    "users?page=" + IntToString(page)
  }

  /** The message of the HttpRequestException thrown by EnsureSuccessStatusCode. */
  function StatusErrorMessage(code: int): string
  {
    "Response status code does not indicate success: " + IntToString(code) + "."
  }

  function UserFetchFailed(id: int, detail: string): string
  {
    "Failed to fetch user " + IntToString(id) + ": " + detail
  }

  function PageFetchFailed(page: int, detail: string): string
  {
    "Failed to fetch users page " + IntToString(page) + ": " + detail
  }

  /** The request paths are distinct for distinct arguments and never
      coincide across the two endpoints. */
  lemma PathsAreDistinct(a: int, b: int)
    ensures UserPath(a) == UserPath(b) <==> a == b
    ensures PagePath(a) == PagePath(b) <==> a == b
    ensures UserPath(a) != PagePath(b)
  {
    IntToStringInjective(a, b);
    if UserPath(a) == UserPath(b) {
      assert IntToString(a) == UserPath(a)[6..] == UserPath(b)[6..] == IntToString(b);
    }
    if PagePath(a) == PagePath(b) {
      assert IntToString(a) == PagePath(a)[11..] == PagePath(b)[11..] == IntToString(b);
    }
    assert UserPath(a)[5] == '/' && PagePath(b)[5] == '?';
  }

  /** The server reads the user id back from the path. */
  lemma UserPathCarriesId(id: int)
    ensures HasPrefix(UserPath(id), "users/")
    ensures ParseInt(UserPath(id)[6..]) == id
  {
    IntToStringRoundTrip(id);
    assert UserPath(id)[6..] == IntToString(id);
  }

  /** The server reads the page number back from the query string. */
  lemma PagePathCarriesPage(page: int)
    ensures HasPrefix(PagePath(page), "users?page=")
    ensures ParseInt(PagePath(page)[11..]) == page
  {
    IntToStringRoundTrip(page);
    assert PagePath(page)[11..] == IntToString(page);
  }

  /** GetUserByIdAsync. */
  function GetUserById(http: HttpGet<ApiResponse<User>>, id: int): (r: Result<Option<User>, ClientError>)
    // null exactly for a 404, or for a success whose envelope or `data` is null
    ensures r == Success(None) <==>
              http(UserPath(id)).Response? &&
              (http(UserPath(id)).status == NotFound ||
               (IsSuccessStatus(http(UserPath(id)).status) &&
                http(UserPath(id)).body.Decoded? &&
                (http(UserPath(id)).body.envelope.None? || http(UserPath(id)).body.envelope.value.data.None?)))
    // a user only from a success status carrying exactly that user
    ensures r.Success? && r.value.Some? ==>
              http(UserPath(id)).Response? && IsSuccessStatus(http(UserPath(id)).status) &&
              http(UserPath(id)).body.Decoded? && http(UserPath(id)).body.envelope.Some? &&
              http(UserPath(id)).body.envelope.value.data == r.value
    // a success status with a decoded envelope returns its data
    ensures var o := http(UserPath(id));
            o.Response? && IsSuccessStatus(o.status) && o.body.Decoded? && o.body.envelope.Some? ==>
              r == Success(o.body.envelope.value.data)
    // cancellation is reported as a time-out, and only cancellation is
    ensures r.Failure? ==> (r.error.Timeout? <==> http(UserPath(id)).Canceled?)
    // a failed request or a non-success status other than 404
    ensures (http(UserPath(id)).RequestError? ||
             (http(UserPath(id)).Response? && http(UserPath(id)).status != NotFound &&
              !IsSuccessStatus(http(UserPath(id)).status))) ==>
              r.Failure? && r.error.InvalidOperation? &&
              HasPrefix(r.error.message, "Failed to fetch user " + IntToString(id))
  {
    match http(UserPath(id))
    case Response(status, body) =>
      if status == NotFound then Success(None)
      else if !IsSuccessStatus(status) then
        Failure(InvalidOperation(UserFetchFailed(id, StatusErrorMessage(status))))
      else
        (match body
         case Malformed =>
           Failure(InvalidOperation("Failed to deserialize response for user " + IntToString(id)))
         case Decoded(envelope) =>
           Success(if envelope.Some? then envelope.value.data else None))
    case RequestError(message) =>
      Failure(InvalidOperation(UserFetchFailed(id, message)))
    case Canceled =>
      Failure(Timeout("Request timeout while fetching user " + IntToString(id)))
  }

  /** GetUsersPageAsync. */
  function GetUsersPage(http: HttpGet<UserListResponse>, page: int): (r: Result<Option<UserListResponse>, ClientError>)
    // a value exactly for a success status with a well-formed body, returned unchanged
    ensures r.Success? <==>
              http(PagePath(page)).Response? && IsSuccessStatus(http(PagePath(page)).status) &&
              http(PagePath(page)).body.Decoded?
    ensures r.Success? ==> http(PagePath(page)).body == Decoded(r.value)
    // cancellation is reported as a time-out, and only cancellation is
    ensures r.Failure? ==> (r.error.Timeout? <==> http(PagePath(page)).Canceled?)
    // every non-success status fails, 404 included
    ensures (http(PagePath(page)).RequestError? ||
             (http(PagePath(page)).Response? && !IsSuccessStatus(http(PagePath(page)).status))) ==>
              r.Failure? && r.error.InvalidOperation? &&
              HasPrefix(r.error.message, "Failed to fetch users page " + IntToString(page))
  {
    match http(PagePath(page))
    case Response(status, body) =>
      if !IsSuccessStatus(status) then
        Failure(InvalidOperation(PageFetchFailed(page, StatusErrorMessage(status))))
      else
        (match body
         case Malformed =>
           Failure(InvalidOperation("Failed to deserialize response for users page " + IntToString(page)))
         case Decoded(envelope) =>
           Success(envelope))
    case RequestError(message) =>
      Failure(InvalidOperation(PageFetchFailed(page, message)))
    case Canceled =>
      Failure(Timeout("Request timeout while fetching users page " + IntToString(page)))
  }

  /** A body that fails to deserialize after a success status is an
      InvalidOperationException naming deserialization. */
  lemma MalformedUserIsDeserializeFailure(http: HttpGet<ApiResponse<User>>, id: int)
    requires http(UserPath(id)).Response? && IsSuccessStatus(http(UserPath(id)).status)
    requires http(UserPath(id)).body.Malformed?
    ensures GetUserById(http, id) ==
              Failure(InvalidOperation("Failed to deserialize response for user " + IntToString(id)))
  {
  }

  lemma MalformedPageIsDeserializeFailure(http: HttpGet<UserListResponse>, page: int)
    requires http(PagePath(page)).Response? && IsSuccessStatus(http(PagePath(page)).status)
    requires http(PagePath(page)).body.Malformed?
    ensures GetUsersPage(http, page) ==
              Failure(InvalidOperation("Failed to deserialize response for users page " + IntToString(page)))
  {
  }

  /** A 404 is null for the single user but an InvalidOperationException for a page. */
  lemma NotFoundDiffersByEndpoint(
    userHttp: HttpGet<ApiResponse<User>>, pageHttp: HttpGet<UserListResponse>, id: int, page: int)
    requires userHttp(UserPath(id)).Response? && userHttp(UserPath(id)).status == NotFound
    requires pageHttp(PagePath(page)).Response? && pageHttp(PagePath(page)).status == NotFound
    ensures GetUserById(userHttp, id) == Success(None)
    ensures GetUsersPage(pageHttp, page).Failure? && GetUsersPage(pageHttp, page).error.InvalidOperation?
  {
  }
}
