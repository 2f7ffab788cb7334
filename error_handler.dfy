/**
 * The error utilities (src/utils/ErrorHandler.js): the status code and
 * message taken from an API error, the error page it redirects to, the
 * success test on a response and the display text of a GraphQL error.
 */
module ErrorHandler {
  import opened Wrappers
  import opened Strings
  import opened BrowserState

  const UnexpectedText: string := "An unexpected error occurred"
  const UnknownText: string := "An unknown error occurred"
  const NetworkText: string := "Network error: Please check your connection"

  /** The body of an HTTP error response; `message` is absent when the body has none. */
  datatype ResponseData = ResponseData(message: Option<string>)

  /** `error.response`: its status and its (possibly null) body. */
  datatype HttpResponse = HttpResponse(status: int, data: Option<ResponseData>)

  /** The fields of an error object that `handleApiError` reads. */
  datatype ApiError = ApiError(response: Option<HttpResponse>, statusCode: Option<int>, message: Option<string>)

  /** What `handleApiError` returns. */
  datatype ErrorInfo = ErrorInfo(statusCode: int, message: string)

  /** A JavaScript string is truthy exactly when it is non-empty. */
  predicate TruthyText(s: Option<string>) {
    s.Some? && s.value != ""
  }

  /** A number is truthy exactly when it is not zero. */
  predicate TruthyCode(c: Option<int>) {
    c.Some? && c.value != 0
  }

  /**
   * The status code of an error, by priority: the response's status, then
   * the error's own `statusCode`, then 404 or 400 when the message names
   * one (404 first), and 500 otherwise.
   */
  function StatusCodeOf(error: ApiError): int {
    if error.response.Some? then error.response.value.status
    else if TruthyCode(error.statusCode) then error.statusCode.value
    else if TruthyText(error.message) && Contains(error.message.value, "404") then 404
    else if TruthyText(error.message) && Contains(error.message.value, "400") then 400
    else 500
  }

  /** The message of an error: the response body's message when non-empty, else the default. */
  function MessageOf(error: ApiError): string {
    match error.response
    case Some(HttpResponse(_, Some(ResponseData(m)))) =>
      if TruthyText(m) then m.value else UnexpectedText
    case _ => UnexpectedText
  }

  /** The code comes from the response, from the error, or is one of 404, 400 and 500 chosen from the message. */
  lemma StatusCodeSources(error: ApiError)
    ensures error.response.Some? ==> StatusCodeOf(error) == error.response.value.status
    ensures error.response.None? && TruthyCode(error.statusCode) ==> StatusCodeOf(error) == error.statusCode.value
    ensures error.response.None? && !TruthyCode(error.statusCode) ==>
      && StatusCodeOf(error) in {400, 404, 500}
      && (StatusCodeOf(error) == 404 <==> error.message.Some? && Contains(error.message.value, "404"))
      && (StatusCodeOf(error) == 400 <==>
            error.message.Some? && Contains(error.message.value, "400") && !Contains(error.message.value, "404"))
      && (StatusCodeOf(error) == 500 <==>
            error.message.None? || (!Contains(error.message.value, "404") && !Contains(error.message.value, "400")))
  {
    if error.message.Some? && error.message.value == "" {
      assert !Contains(error.message.value, "404") by {
        ContainsIff(error.message.value, "404");
      }
      assert !Contains(error.message.value, "400") by {
        ContainsIff(error.message.value, "400");
      }
    }
  }

  /** A message naming both 404 and 400 is classified 404. */
  lemma NotFoundBeforeBadRequest(error: ApiError)
    requires error.response.None? && !TruthyCode(error.statusCode)
    requires error.message.Some? && Contains(error.message.value, "404") && Contains(error.message.value, "400")
    ensures StatusCodeOf(error) == 404
  {
    StatusCodeSources(error);
  }

  /**
   * A response body with a non-empty message gives that message; every
   * other error, and in particular one whose code is taken from
   * `statusCode` or from the message text, gives the default message.
   */
  lemma MessageOnlyFromResponse(error: ApiError)
    ensures error.response.Some? && error.response.value.data.Some? && TruthyText(error.response.value.data.value.message) ==>
      MessageOf(error) == error.response.value.data.value.message.value
    ensures !(error.response.Some? && error.response.value.data.Some? && TruthyText(error.response.value.data.value.message)) ==>
      MessageOf(error) == UnexpectedText
    ensures MessageOf(error) != UnexpectedText ==>
      && error.response.Some?
      && error.response.value.data.Some?
      && error.response.value.data.value.message == Some(MessageOf(error))
    ensures error.response.None? ==> MessageOf(error) == UnexpectedText
  {
  }

  /** The page a status code sends the user to. */
  function RedirectTarget(statusCode: int): (target: string)
    ensures target == "/login" <==> statusCode == 401
    ensures target == "/error/400" <==> statusCode == 400
    ensures target == "/error/404" <==> statusCode == 404
    ensures target == "/error/500" <==> statusCode !in {400, 401, 404}
  {
    match statusCode
    case 400 => "/error/400"
    case 401 => "/login"
    case 404 => "/error/404"
    case _ => "/error/500"
  }

  /**
   * `handleApiError(error, redirect)`: works out the status code and the
   * message, and when `redirect` holds sends the browser to the matching
   * page, removing the stored token for a 401. The returned value does not
   * depend on `redirect`.
   */
  method HandleApiError(browser: Browser, error: ApiError, redirect: bool) returns (info: ErrorInfo)
    modifies browser
    ensures info == ErrorInfo(StatusCodeOf(error), MessageOf(error))
    ensures redirect ==> browser.href == RedirectTarget(info.statusCode)
    ensures !redirect ==> browser.href == old(browser.href)
    ensures browser.storage ==
      if redirect && info.statusCode == 401 then old(browser.storage) - {TokenKey} else old(browser.storage)
  {
    var statusCode := 500;
    var errorMessage := UnexpectedText;

    if error.response.Some? {
      statusCode := error.response.value.status;
      var data := error.response.value.data;
      if data.Some? && TruthyText(data.value.message) {
        errorMessage := data.value.message.value;
      }
    } else if TruthyCode(error.statusCode) {
      statusCode := error.statusCode.value;
    } else if TruthyText(error.message) && Contains(error.message.value, "404") {
      statusCode := 404;
    } else if TruthyText(error.message) && Contains(error.message.value, "400") {
      statusCode := 400;
    }

    if redirect {
      if statusCode == 400 {
        browser.Assign("/error/400");
      } else if statusCode == 401 {
        browser.RemoveItem(TokenKey);
        browser.Assign("/login");
      } else if statusCode == 404 {
        browser.Assign("/error/404");
      } else if statusCode in {500, 502, 503, 504} {
        browser.Assign("/error/500");
      } else {
        browser.Assign("/error/500");
      }
    }

    info := ErrorInfo(statusCode, errorMessage);
  }

  /** `isSuccessfulResponse`: a response is present and its status is in [200, 300). */
  function IsSuccessfulResponse(response: Option<HttpResponse>): (ok: bool) {
    response.Some? && 200 <= response.value.status < 300
  }

  /**
   * The class of a three-digit status code is its first digit (section 15
   * of RFC 9110); class 2 is "Successful".
   */
  function StatusClass(status: int): (c: int)
    requires 100 <= status <= 999
    ensures 1 <= c <= 9
    ensures c * 100 <= status < c * 100 + 100
  {
    status / 100
  }

  /** For a three-digit status, success is exactly membership of class 2. */
  lemma SuccessIsClassTwo(response: HttpResponse)
    requires 100 <= response.status <= 999
    ensures IsSuccessfulResponse(Some(response)) <==> StatusClass(response.status) == 2
  {
  }


  /** One entry of Apollo's `graphQLErrors`. */
  datatype GraphQLError = GraphQLError(message: string)

  /** The fields of an Apollo error that `formatErrorMessage` reads. */
  datatype ApolloError = ApolloError(graphQLErrors: Option<seq<GraphQLError>>, networkError: bool, message: Option<string>)

  predicate HasGraphQLErrors(e: ApolloError) {
    e.graphQLErrors.Some? && |e.graphQLErrors.value| > 0
  }

  /**
   * `formatErrorMessage`: by priority, the text for no error, the first
   * GraphQL error's message, the network text, and the error's own message
   * or the default.
   */
  function FormatErrorMessage(error: Option<ApolloError>): (text: string)
    ensures error.None? ==> text == UnknownText
    ensures error.Some? && HasGraphQLErrors(error.value) ==> text == error.value.graphQLErrors.value[0].message
    ensures error.Some? && !HasGraphQLErrors(error.value) && error.value.networkError ==> text == NetworkText
    ensures error.Some? && !HasGraphQLErrors(error.value) && !error.value.networkError ==>
      text == if TruthyText(error.value.message) then error.value.message.value else UnexpectedText
  {
    if error.None? then UnknownText
    else if HasGraphQLErrors(error.value) then error.value.graphQLErrors.value[0].message
    else if error.value.networkError then NetworkText
    else if TruthyText(error.value.message) then error.value.message.value
    else UnexpectedText
  }

  /**
   * The text is one of the three fixed texts or comes from the error, and
   * it is empty only when the first GraphQL error's message is.
   */
  lemma FormatErrorMessageSource(error: Option<ApolloError>)
    ensures var text := FormatErrorMessage(error);
      || text in {UnknownText, NetworkText, UnexpectedText}
      || (error.Some? && HasGraphQLErrors(error.value) && text == error.value.graphQLErrors.value[0].message)
      || (error.Some? && error.value.message == Some(text))
    ensures FormatErrorMessage(error) == "" ==>
      error.Some? && HasGraphQLErrors(error.value) && error.value.graphQLErrors.value[0].message == ""
  {
  }
}
