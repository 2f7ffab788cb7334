/**
 * The sign-in page (src/pages/Login.js): the form state, `handleChange`,
 * and `handleSubmit` with its credential split and error-message
 * normalisation. `JSON.parse` is an input.
 */
module Login {
  import opened Wrappers
  import opened Strings
  import opened AuthContext
  import opened BrowserState

  const ProfilePath: string := "/profile"
  const RetryText: string := "An unexpected error occurred. Please try again."
  const NoUserPhrase: string := "User does not exist or password incorrect"
  const WrongCredentialsText: string := "Incorrect username or password."
  const JsonErrorMarker: string := "{\"error\":"

  /**
   * The `error` field of `JSON.parse(message)`: the parse threw, the field
   * is absent or falsy, a string, an array of strings (truthy even when
   * empty), or some other truthy value (a number, a boolean, an object).
   */
  datatype ErrorField = Unparsable | Falsy | Text(value: string) | Items(items: seq<string>) | NonText

  /**
   * The value held in the page's `error` state: a string, or the array an
   * `error` field held, whose strings are shown one after the other.
   */
  datatype Shown = ShownText(text: string) | ShownItems(items: seq<string>)

  /** Takes the credentials from the identifier: an identifier with "@" is an email address. */
  function BuildCredentials(identifier: string, password: string): (c: Credentials)
    ensures Contains(identifier, "@") ==> c.email == identifier && c.username == ""
    ensures !Contains(identifier, "@") ==> c.username == identifier && c.email == ""
    ensures c.password == password
  {
    var isEmail := Contains(identifier, "@");
    Credentials(if isEmail then "" else identifier, if isEmail then identifier else "", password)
  }

  /**
   * Whatever kind of identifier is typed, the sign-in request carries
   * exactly "identifier:password".
   */
  lemma CredentialsRoundTrip(identifier: string, password: string)
    ensures AuthString(BuildCredentials(identifier, password), Contains(identifier, "@")) == identifier + ":" + password
  {
  }

  /** A message naming the missing user or wrong password becomes the short text. */
  function Friendly(message: string): (text: string)
    ensures Contains(message, NoUserPhrase) ==> text == WrongCredentialsText
    ensures !Contains(message, NoUserPhrase) ==> text == message
  {
    if Contains(message, NoUserPhrase) then WrongCredentialsText else message
  }

  /** Normalising twice changes nothing: the short text does not name the phrase again. */
  lemma {:induction false} FriendlyIdempotent(message: string)
    ensures Friendly(Friendly(message)) == Friendly(message)
  {
    if Contains(message, NoUserPhrase) {
      NotContainsLonger(WrongCredentialsText, NoUserPhrase);
    }
  }

  /**
   * The error of a failed login: a message holding `{"error":` is replaced
   * by its parsed `error` field when that is truthy, then the phrase test
   * applies. On a string it is `Friendly`; on an array it is
   * `Array.prototype.includes`, element equality, and the array itself is
   * shown otherwise. Any other truthy `error` has no `includes`, so the
   * call throws and none is returned.
   */
  function NormalizeMessage(message: string, parse: string -> ErrorField): (shown: Option<Shown>)
    ensures !Contains(message, JsonErrorMarker) ==> shown == Some(ShownText(Friendly(message)))
    ensures Contains(message, JsonErrorMarker) && parse(message).Text? && parse(message).value != "" ==>
      shown == Some(ShownText(Friendly(parse(message).value)))
    ensures Contains(message, JsonErrorMarker) && (parse(message).Unparsable? || parse(message).Falsy? || parse(message) == Text("")) ==>
      shown == Some(ShownText(Friendly(message)))
    ensures Contains(message, JsonErrorMarker) && parse(message).Items? ==>
      shown == Some(if NoUserPhrase in parse(message).items then ShownText(WrongCredentialsText) else ShownItems(parse(message).items))
    ensures shown.None? <==> Contains(message, JsonErrorMarker) && parse(message).NonText?
  {
    if !Contains(message, JsonErrorMarker) then Some(ShownText(Friendly(message)))
    else
      match parse(message)
      case Text(value) => Some(ShownText(Friendly(if value != "" then value else message)))
      case Items(items) => Some(if NoUserPhrase in items then ShownText(WrongCredentialsText) else ShownItems(items))
      case NonText => None
      case _ => Some(ShownText(Friendly(message)))
  }

  /**
   * The shown error is the short text, the message itself, or the parsed
   * field of a JSON message; a message without the marker is never
   * replaced.
   */
  lemma NormalizeMessageSource(message: string, parse: string -> ErrorField)
    ensures var shown := NormalizeMessage(message, parse);
      shown.Some? ==>
        || shown.value == ShownText(WrongCredentialsText)
        || shown.value == ShownText(message)
        || (Contains(message, JsonErrorMarker) && shown.value.ShownText? && parse(message) == Text(shown.value.text))
        || (Contains(message, JsonErrorMarker) && shown.value.ShownItems? && parse(message) == Items(shown.value.items))
    ensures var shown := NormalizeMessage(message, parse);
      shown.Some? && shown.value.ShownText? && shown.value.text != WrongCredentialsText ==>
        !Contains(shown.value.text, NoUserPhrase)
  {
    var shown := NormalizeMessage(message, parse);
    if shown.Some? && shown.value.ShownText? && shown.value.text != WrongCredentialsText {
      if Contains(message, JsonErrorMarker) && parse(message).Text? && parse(message).value != "" {
        assert shown.value.text == Friendly(parse(message).value);
      } else {
        assert shown.value.text == Friendly(message);
      }
    }
  }

  /** The error the page shows after `login` answered `result`. */
  function SubmitError(result: LoginResult, parse: string -> ErrorField): (error: Shown)
    ensures result.Success? ==> error == ShownText("")
    ensures result.Failure? && !Contains(result.message, JsonErrorMarker) ==> error == ShownText(Friendly(result.message))
    ensures result.Failure? && Contains(result.message, JsonErrorMarker) ==>
      var field := parse(result.message);
      && (field.Text? && field.value != "" ==> error == ShownText(Friendly(field.value)))
      && (field.Unparsable? || field.Falsy? || field == Text("") ==> error == ShownText(Friendly(result.message)))
      && (field.Items? ==> error == if NoUserPhrase in field.items then ShownText(WrongCredentialsText) else ShownItems(field.items))
      && (field.NonText? ==> error == ShownText(RetryText))
  {
    match result
    case Success => ShownText("")
    case Failure(message) =>
      match NormalizeMessage(message, parse)
      case Some(shown) => shown
      case None => ShownText(RetryText)
  }

  /** The field names of the form. */
  const IdentifierField: string := "identifier"
  const PasswordField: string := "password"

  class LoginPage {
    var formData: map<string, string>
    var error: Shown
    var isLoading: bool
    /** Where `navigate` was last sent, if anywhere. */
    var navigatedTo: Option<string>
    const auth: AuthProvider

    ghost predicate Valid()
      reads this, auth
    {
      IdentifierField in formData && PasswordField in formData && auth.Valid()
    }

    /** The initial state: both fields empty, no error, not loading. */
    constructor (auth: AuthProvider)
      requires auth.Valid()
      ensures Valid()
      ensures formData == map[IdentifierField := "", PasswordField := ""]
      ensures error == ShownText("") && !isLoading && navigatedTo.None? && this.auth == auth
    {
      formData := map[IdentifierField := "", PasswordField := ""];
      error, isLoading, navigatedTo := ShownText(""), false, None;
      this.auth := auth;
    }

    /** `handleChange`: the named field takes the typed value; every other field keeps its own. */
    method HandleChange(name: string, value: string)
      requires Valid()
      modifies this
      ensures Valid()
      ensures formData == old(formData)[name := value]
      ensures forall k :: k in old(formData) && k != name ==> formData[k] == old(formData)[k]
      ensures error == old(error) && isLoading == old(isLoading) && navigatedTo == old(navigatedTo)
    {
      formData := formData[name := value];
    }

    /**
     * `handleSubmit`: signs in with the credentials built from the form;
     * on success it navigates to the profile with no error, otherwise it
     * shows the normalised message. The session and the stored token
     * change as `login` changes them. Loading is over when it returns.
     */
    method HandleSubmit(signIn: string -> SignInResponse, decode: string -> DecodeResult, parse: string -> ErrorField)
      requires Valid()
      modifies this, auth, auth.browser
      ensures Valid()
      ensures !isLoading && formData == old(formData)
      ensures var authString := old(formData)[IdentifierField] + ":" + old(formData)[PasswordField];
        var result := LoginOutcome(authString, signIn, decode);
        && error == SubmitError(result, parse)
        && navigatedTo == if result.Success? then Some(ProfilePath) else old(navigatedTo)
      ensures auth.loading == old(auth.loading) && auth.browser.href == old(auth.browser.href)
      ensures var response := signIn(old(formData)[IdentifierField] + ":" + old(formData)[PasswordField]);
        if response.SignedIn? then
          && auth.browser.storage == old(auth.browser.storage)[TokenKey := response.token]
          && (if decode(response.token).Decoded? then
                auth.isAuthenticated && auth.user == Some(decode(response.token).claims)
              else
                auth.isAuthenticated == old(auth.isAuthenticated) && auth.user == old(auth.user))
        else
          && auth.browser.storage == old(auth.browser.storage)
          && auth.isAuthenticated == old(auth.isAuthenticated)
          && auth.user == old(auth.user)
    {
      error := ShownText("");
      isLoading := true;

      var identifier := formData[IdentifierField];
      var isEmail := Contains(identifier, "@");
      var credentials := BuildCredentials(identifier, formData[PasswordField]);
      CredentialsRoundTrip(identifier, formData[PasswordField]);

      var result := auth.Login(credentials, isEmail, signIn, decode);
      if result.Success? {
        navigatedTo := Some(ProfilePath);
      } else {
        match NormalizeMessage(result.message, parse) {
          case Some(shown) => error := shown;
          case None => error := ShownText(RetryText);
        }
      }

      isLoading := false;
    }
  }
}
