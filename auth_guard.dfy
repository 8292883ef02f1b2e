/**
 * The entry guard of the protected area (src/routes/_auth/route.tsx): before the area renders,
 * the current user is read through the query cache; a missing or insufficient session sends the
 * visitor to the login page with the requested URL kept for later, any other failure is left to
 * the area's error view. The area's loader then makes sure the forum and user lists are cached.
 */
module AuthGuard {
  import opened Wrappers
  import opened AppErrors
  import opened Entities
  import opened Navigation
  import opened QueryKeys
  import opened QueryCache
  import opened HttpClient

  /**
   * What `beforeLoad` ends with: the route context `{ currentUser }`, a thrown
   * `redirect({ to, search: { redirect } })`, or the caught error thrown again.
   */
  datatype GuardOutcome =
    | Allow(currentUser: User)
    | Redirect(to: string, redirect: string)
    | Rethrow(error: Thrown)

  /**
   * `beforeLoad`, given the outcome of reading the current user, the location of the route being
   * entered (the URL the visitor asked for) and the normaliser
   * `AppError.fromUnknown`, which is not part of this model. The normalised error only chooses
   * the branch: what is thrown again is the original value.
   */
  function BeforeLoad(read: Result<User, Thrown>, location: Location, fromUnknown: Thrown -> AppError): (r: GuardOutcome)
    ensures r.Allow? <==> read.Ok?
    ensures r.Allow? ==> r.currentUser == read.value
    ensures r.Redirect? <==> read.Err? && IsAuthFailure(fromUnknown(read.error).code)
    ensures r.Redirect? ==> r.to == LoginPath && r.redirect == location.href
    ensures r.Rethrow? ==> r.error == read.error && !IsAuthFailure(fromUnknown(read.error).code)
  {
    match read
    case Ok(currentUser) => Allow(currentUser)
    case Err(error) =>
      var appError := fromUnknown(error);
      if appError.code == Unauthorized || appError.code == Forbidden then
        Redirect(LoginPath, location.href)
      else
        Rethrow(error)
  }

  /**
   * The two guards agree. When the profile request of the entry check fails, the response hook
   * throws `AppError(codeFromStatus(status), ErrorMessage(response))`; provided `fromUnknown`
   * hands an `AppError` back unchanged, the entry guard redirects exactly when that code is
   * `unauthorized` or `forbidden`, and otherwise surfaces the hook's error itself.
   */
  lemma EntryGuardOnFailedProfileRead(response: Response, location: Location,
                                      codeFromStatus: nat -> ErrorCode, fromUnknown: Thrown -> AppError)
    requires !IsOk(response.status)
    requires forall e :: fromUnknown(ThrownAppError(e)) == e
    ensures var thrown := ThrownAppError(AppError(codeFromStatus(response.status), ErrorMessage(response)));
            var r := BeforeLoad(Err(thrown), location, fromUnknown);
            && (r.Redirect? <==> IsAuthFailure(codeFromStatus(response.status)))
            && (r.Redirect? ==> r == Redirect(LoginPath, location.href))
            && (!r.Redirect? ==> r == Rethrow(thrown))
  {
    var thrown := ThrownAppError(AppError(codeFromStatus(response.status), ErrorMessage(response)));
    assert fromUnknown(thrown) == thrown.appError;
  }

  /**
   * The `loader`: both lists are requested (in parallel in the source) and the loader completes
   * only when both are in the cache. A list that is already cached is not fetched again. When
   * a fetch fails the loader fails with one of the failures; which one, when both fail, depends
   * on timing and is left open.
   */
  method Loader<D, E>(client: QueryClient<D>, forums: Result<D, E>, users: Result<D, E>) returns (r: Result<(), E>)
    modifies client
    ensures Key(Forums) in client.entries <==> Key(Forums) in old(client.entries) || forums.Ok?
    ensures Key(Users) in client.entries <==> Key(Users) in old(client.entries) || users.Ok?
    ensures r.Ok? <==> Key(Forums) in client.entries && Key(Users) in client.entries
    ensures r.Err? ==> (forums.Err? && r.error == forums.error) || (users.Err? && r.error == users.error)
    ensures forall k :: k in old(client.entries) ==> k in client.entries && client.entries[k] == old(client.entries[k])
    ensures forall k :: k in client.entries ==> k in old(client.entries) || k == Key(Forums) || k == Key(Users)
    ensures Key(Forums) !in old(client.entries) && forums.Ok? ==> client.entries[Key(Forums)] == Entry(forums.value, false)
    ensures Key(Users) !in old(client.entries) && users.Ok? ==> client.entries[Key(Users)] == Entry(users.value, false)
  {
    var forumsRead := client.EnsureQueryData(Key(Forums), forums);
    var usersRead := client.EnsureQueryData(Key(Users), users);
    if forumsRead.Err? {
      r := Err(forumsRead.error);
    } else if usersRead.Err? {
      r := Err(usersRead.error);
    } else {
      r := Ok(());
    }
  }
}
