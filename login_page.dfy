/**
 * The login page (src/routes/login.tsx): its search parameter, the submit validator, the
 * mutation it runs and where it goes after a successful login.
 */
module LoginPage {
  import opened Wrappers
  import opened JsStrings
  import opened Navigation
  import opened Mutations

  /** A search parameter as the router hands it to `validateSearch`. */
  datatype SearchValue = SString(s: string) | SNonString

  /** The schema rejected the search parameters. */
  datatype SearchError = RedirectNotAString

  datatype LoginForm = LoginForm(username: string, password: string)

  const EmptyLoginForm: LoginForm := LoginForm("", "")

  /** `validateSearch: type({ redirect: "string?" })`: `redirect` may be absent; when present it must be a string. */
  function ValidateSearch(redirect: Option<SearchValue>): (r: Result<Option<string>, SearchError>)
    ensures r.Ok? <==> redirect.None? || redirect.value.SString?
    ensures r.Ok? ==> (r.value.Some? <==> redirect.Some?)
    ensures r.Ok? && r.value.Some? ==> redirect.value == SString(r.value.value)
  {
    match redirect
    case None => Ok(None)
    case Some(SString(s)) => Ok(Some(s))
    case Some(SNonString) => Err(RedirectNotAString)
  }

  /** The submit validator: username and password each of length 2 to 100. */
  predicate LoginFormValid(form: LoginForm) {
    LengthWithin(form.username, 2, 100) && LengthWithin(form.password, 2, 100)
  }

  /** `onSubmit`: the form's value, as it is, becomes the login mutation, once the validator passes. */
  function SubmitLogin(form: LoginForm): (r: Option<Mutation>)
    ensures r.Some? <==> LoginFormValid(form)
    ensures r.Some? ==> RequestOf(r.value).path == "api/auth/login"
    ensures r.Some? ==> RequestOf(r.value).json == Some(map["username" := FString(form.username), "password" := FString(form.password)])
  {
    if LoginFormValid(form) then Some(Login(form.username, form.password)) else None
  }

  /** The navigation after a successful login: `navigate({ to: redirect ?? "/" })`. */
  function AfterLogin(redirect: Option<string>): (r: Navigate)
    ensures redirect.Some? ==> r.to == redirect.value
    ensures redirect.None? ==> r.to == HomePath
    ensures r.redirect.None? && !r.replace
  {
    Navigate(match redirect case Some(target) => target case None => HomePath, None, false)
  }

  /** The empty form cannot be submitted, and a name of one character below U+10000 is too short. */
  lemma ShortCredentialsRejected(password: string, c: char)
    requires c as int <= 0xFFFF
    ensures SubmitLogin(EmptyLoginForm).None?
    ensures SubmitLogin(LoginForm([c], password)).None?
  {
    assert [c][..0] == [];
    assert Utf16Length([c]) == 1;
  }

  /** Lengths are JavaScript lengths: one character above U+FFFF (an emoji, say) is two code units and passes the minimum of 2. */
  lemma AstralCharacterCountsTwice(c: char)
    requires c as int > 0xFFFF
    ensures LengthWithin([c], 2, 100)
    ensures SubmitLogin(LoginForm([c], [c])).Some?
  {
    assert [c][..0] == [];
    assert Utf16Length([c]) == 2;
  }

  /**
   * The session redirect and the login page complete a round trip: the URL the response hook
   * records as `redirect` passes `validateSearch` and is where the successful login goes.
   */
  lemma ReturnToRequestedPage(href: string)
    ensures ValidateSearch(Some(SString(href))) == Ok(Some(href))
    ensures AfterLogin(Some(href)).to == href
  {
  }
}
