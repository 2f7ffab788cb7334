/**
 * The authentication provider (src/utils/AuthContext.js): the session
 * state `isAuthenticated`, `user` and `loading`, the token kept in
 * `localStorage`, and the transitions `checkAuth`, `login` and `logout`.
 * The JWT decoder, the clock and the sign-in request are inputs.
 */
module AuthContext {
  import opened Wrappers
  import opened BrowserState

  const DefaultFailureText: string := "Authentication failed. Please check your credentials."

  /**
   * The decoded JWT claims. `exp` is the expiration time of section 4.1.4
   * of RFC 7519, a NumericDate in seconds; `payload` stands for the other
   * claims.
   */
  datatype Claims = Claims(exp: Option<int>, payload: string)

  /** What `jwtDecode` does with a token: the claims, or the error it throws. */
  datatype DecodeResult = Decoded(claims: Claims) | InvalidToken(message: string)

  /**
   * The `data` of an error response: a string, an object (given by the
   * text `JSON.stringify` makes of it), or anything else.
   */
  datatype ResponseBody = TextBody(text: string) | ObjectBody(json: string) | OtherBody

  /**
   * What the sign-in POST does: the response's `data` (the token), or the
   * error it throws with its optional response body and message.
   */
  datatype SignInResponse =
    | SignedIn(token: string)
    | SignInFailed(response: Option<ResponseBody>, message: Option<string>)

  /** The `credentials` object handed to `login`. */
  datatype Credentials = Credentials(username: string, email: string, password: string)

  /** What `login` returns: `{success: true}` or `{success: false, message}`. */
  datatype LoginResult = Success | Failure(message: string)

  /** `decoded.exp * 1000 < Date.now()`; without `exp` the product is NaN and the test fails. */
  predicate IsExpired(claims: Claims, now: int) {
    claims.exp.Some? && claims.exp.value * 1000 < now
  }

  /**
   * With `now` in milliseconds, a token is expired exactly when its
   * expiry instant, exp seconds, lies strictly before `now`: when exp is
   * at most the last whole second that began strictly before `now`.
   */
  lemma ExpiredInSeconds(claims: Claims, now: int)
    requires claims.exp.Some?
    ensures IsExpired(claims, now) <==> claims.exp.value <= (now - 1) / 1000
  {
    var e, q, r := claims.exp.value, (now - 1) / 1000, (now - 1) % 1000;
    assert now - 1 == q * 1000 + r && 0 <= r < 1000;
    if e <= q {
      assert e * 1000 <= q * 1000;
    } else {
      assert e * 1000 >= q * 1000 + 1000;
    }
  }

  /** A token that is expired stays expired as time goes on. */
  lemma ExpiryIsPermanent(claims: Claims, now: int, later: int)
    requires now <= later && IsExpired(claims, now)
    ensures IsExpired(claims, later)
  {
  }

  /** The string that is Base64-encoded into the Basic authorization header. */
  function AuthString(credentials: Credentials, isEmail: bool): (s: string)
    ensures isEmail ==> s == credentials.email + ":" + credentials.password
    ensures !isEmail ==> s == credentials.username + ":" + credentials.password
  {
    (if isEmail then credentials.email else credentials.username) + ":" + credentials.password
  }

  /**
   * The message of a failed sign-in: a string body as it is, an object
   * body as its JSON text, and without a response the error's message when
   * non-empty; the default text otherwise.
   */
  function FailureMessage(response: Option<ResponseBody>, message: Option<string>): string {
    match response
    case Some(TextBody(text)) => text
    case Some(ObjectBody(json)) => json
    case Some(OtherBody) => DefaultFailureText
    case None => if message.Some? && message.value != "" then message.value else DefaultFailureText
  }

  /**
   * The failure message by priority: a string body as it is, then an
   * object body as its JSON text, then, without a response, the error's
   * non-empty message, and the default text otherwise. Nothing else is
   * made up.
   */
  lemma FailureMessageSource(response: Option<ResponseBody>, message: Option<string>)
    ensures response.Some? && response.value.TextBody? ==> FailureMessage(response, message) == response.value.text
    ensures response.Some? && response.value.ObjectBody? ==> FailureMessage(response, message) == response.value.json
    ensures response.None? && message.Some? && message.value != "" ==> FailureMessage(response, message) == message.value
    ensures response.None? && (message.None? || message.value == "") ==> FailureMessage(response, message) == DefaultFailureText
    ensures var m := FailureMessage(response, message);
      || m == DefaultFailureText
      || response == Some(TextBody(m))
      || response == Some(ObjectBody(m))
      || (response.None? && message == Some(m))
    ensures response.Some? && response.value.OtherBody? ==> FailureMessage(response, message) == DefaultFailureText
    ensures response.Some? ==> FailureMessage(response, None) == FailureMessage(response, message)
  {
  }

  /** The result `login` returns for the sign-in response and the decoder. */
  function LoginOutcome(authString: string, signIn: string -> SignInResponse, decode: string -> DecodeResult): LoginResult {
    match signIn(authString)
    case SignedIn(token) =>
      (match decode(token)
       case Decoded(_) => Success
       case InvalidToken(message) => Failure(FailureMessage(None, Some(message))))
    case SignInFailed(response, message) => Failure(FailureMessage(response, message))
  }

  /** A login succeeds exactly when the sign-in answers with a token the decoder accepts. */
  lemma LoginSucceedsIff(authString: string, signIn: string -> SignInResponse, decode: string -> DecodeResult)
    ensures LoginOutcome(authString, signIn, decode).Success? <==>
      signIn(authString).SignedIn? && decode(signIn(authString).token).Decoded?
  {
  }

  class AuthProvider {
    var isAuthenticated: bool
    var user: Option<Claims>
    var loading: bool
    const browser: Browser

    /** The session is authenticated exactly when there is a user. */
    ghost predicate Valid()
      reads this
    {
      isAuthenticated <==> user.Some?
    }

    /** The children are rendered only once loading has finished. */
    predicate RendersChildren()
      reads this
    {
      !loading
    }

    /** The initial state: signed out, no user, loading. */
    constructor (browser: Browser)
      ensures Valid()
      ensures !isAuthenticated && user.None? && loading && !RendersChildren()
      ensures this.browser == browser
    {
      isAuthenticated, user, loading := false, None, true;
      this.browser := browser;
    }

    /** `logout`: the token is removed and the session is cleared. */
    method Logout()
      modifies this, browser
      ensures Valid()
      ensures !isAuthenticated && user.None? && loading == old(loading)
      ensures browser.storage == old(browser.storage) - {TokenKey} && browser.href == old(browser.href)
    {
      browser.RemoveItem(TokenKey);
      user := None;
      isAuthenticated := false;
    }

    /**
     * `checkAuth`, run once on mount: with no stored token (or an empty
     * one) the session is left as it was; a token the decoder rejects or
     * whose `exp` has passed logs out; any other token signs its user in.
     * Loading ends in every case.
     */
    method CheckAuth(decode: string -> DecodeResult, now: int)
      requires Valid()
      modifies this, browser
      ensures Valid() && !loading && RendersChildren()
      ensures browser.href == old(browser.href)
      ensures var token := old(browser.GetItem(TokenKey));
        if token.None? || token.value == "" then
          isAuthenticated == old(isAuthenticated) && user == old(user) && browser.storage == old(browser.storage)
        else if decode(token.value).InvalidToken? || IsExpired(decode(token.value).claims, now) then
          !isAuthenticated && user.None? && browser.storage == old(browser.storage) - {TokenKey}
        else
          isAuthenticated && user == Some(decode(token.value).claims) && browser.storage == old(browser.storage)
    {
      var token := browser.GetItem(TokenKey);
      if token.Some? && token.value != "" {
        match decode(token.value)
        case Decoded(decoded) =>
          if IsExpired(decoded, now) {
            Logout();
          } else {
            user := Some(decoded);
            isAuthenticated := true;
          }
        case InvalidToken(_) =>
          Logout();
      }
      loading := false;
    }

    /**
     * `login`: sends the credentials; on a token, stores it and signs in
     * the decoded user. A sign-in that fails changes nothing; a token the
     * decoder rejects stays stored, but the session is unchanged. The
     * result is the outcome and, on failure, its message.
     */
    method Login(credentials: Credentials, isEmail: bool, signIn: string -> SignInResponse, decode: string -> DecodeResult)
      returns (result: LoginResult)
      requires Valid()
      modifies this, browser
      ensures Valid()
      ensures result == LoginOutcome(AuthString(credentials, isEmail), signIn, decode)
      ensures loading == old(loading) && browser.href == old(browser.href)
      ensures var response := signIn(AuthString(credentials, isEmail));
        if response.SignedIn? then
          && browser.storage == old(browser.storage)[TokenKey := response.token]
          && (if decode(response.token).Decoded? then
                isAuthenticated && user == Some(decode(response.token).claims)
              else
                isAuthenticated == old(isAuthenticated) && user == old(user))
        else
          browser.storage == old(browser.storage) && isAuthenticated == old(isAuthenticated) && user == old(user)
    {
      var authString := AuthString(credentials, isEmail);
      match signIn(authString)
      case SignedIn(token) =>
        browser.SetItem(TokenKey, token);
        match decode(token) {
          case Decoded(decoded) =>
            user := Some(decoded);
            isAuthenticated := true;
            result := Success;
          case InvalidToken(message) =>
            result := Failure(FailureMessage(None, Some(message)));
        }
      case SignInFailed(response, message) =>
        result := Failure(FailureMessage(response, message));
    }
  }
}
