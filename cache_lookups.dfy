/**
 * The lookups of src/hooks/useCache.ts: a user by id and a forum by slug, each a first-match
 * search over a list already in the cache, failing with `not_found`. They never fetch and never
 * change the list. The list itself (what `useUsers` and `useForums` read from the cache) is the
 * lookup's input.
 */
module CacheLookups {
  import opened Wrappers
  import opened AppErrors
  import opened Entities

  /** `xs.findIndex(p)`, as an optional index: the first position whose element satisfies `p`. */
  function FindFirst<T>(xs: seq<T>, p: T -> bool): (r: Option<nat>)
    ensures r.Some? ==> r.value < |xs| && p(xs[r.value])
    ensures r.Some? ==> forall j :: 0 <= j < r.value ==> !p(xs[j])
    ensures r.None? <==> forall j :: 0 <= j < |xs| ==> !p(xs[j])
  {
    if xs == [] then None
    else if p(xs[0]) then Some(0)
    else
      match FindFirst(xs[1..], p)
      case Some(i) => Some(i + 1)
      case None => None
  }

  const UserNotFound: AppError := AppError(NotFound, "User not found")
  const ForumNotFound: AppError := AppError(NotFound, "Forum not found")

  /** `useUser(userId)`: the first cached user with that id, or `not_found`. */
  function UseUser(users: seq<User>, userId: string): (r: Result<User, AppError>)
    ensures r.Ok? ==> r.value.id == userId
    ensures r.Ok? ==> exists i :: 0 <= i < |users| && users[i] == r.value && forall j :: 0 <= j < i ==> users[j].id != userId
    ensures r.Err? <==> forall u :: u in users ==> u.id != userId
    ensures r.Err? ==> r.error == UserNotFound
  {
    match FindFirst(users, (u: User) => u.id == userId)
    case Some(i) => Ok(users[i])
    case None => Err(UserNotFound)
  }

  /** `useForum(slug)`: the first cached forum with that slug, or `not_found`. */
  function UseForum(forums: seq<Forum>, slug: string): (r: Result<Forum, AppError>)
    ensures r.Ok? ==> r.value.slug == slug
    ensures r.Ok? ==> exists i :: 0 <= i < |forums| && forums[i] == r.value && forall j :: 0 <= j < i ==> forums[j].slug != slug
    ensures r.Err? <==> forall f :: f in forums ==> f.slug != slug
    ensures r.Err? ==> r.error == ForumNotFound
  {
    match FindFirst(forums, (f: Forum) => f.slug == slug)
    case Some(i) => Ok(forums[i])
    case None => Err(ForumNotFound)
  }

  /** With ids unique in the list, the user found is the only one with that id. */
  lemma UniqueIdsDetermineUser(users: seq<User>, userId: string, u: User)
    requires forall i, j :: 0 <= i < j < |users| ==> users[i].id != users[j].id
    requires u in users && u.id == userId
    ensures UseUser(users, userId) == Ok(u)
  {
    var r := UseUser(users, userId);
    assert r.Ok?;
    var i :| 0 <= i < |users| && users[i] == r.value && forall j :: 0 <= j < i ==> users[j].id != userId;
    var k :| 0 <= k < |users| && users[k] == u;
    if k < i {
      assert users[k].id != userId;
    } else if i < k {
      assert users[i].id != users[k].id;
    }
  }
}
