/**
 * The write side of src/lib/api.ts (`api.mutations`): the request each mutation sends and the
 * cache instruction its success hook issues. A failed mutation issues none.
 */
module Mutations {
  import opened Wrappers
  import opened AppErrors
  import opened QueryKeys
  import opened QueryCache

  datatype Mutation =
    | Login(username: string, password: string)
    | Logout
    | CreateForum(title: string, slug: string, description: string, category: string)
    | CreatePost(slug: string, title: string, content: string, tags: seq<string>)
    | CreateComment(slug: string, postNumber: string, content: string)
    | ChangePassword(currentPassword: string, newPassword: string)

  /** A JSON field value of a request body. */
  datatype JsonField = FString(s: string) | FStrings(items: seq<string>)

  /** A POST to a path relative to the API base URL, with its JSON body if any. */
  datatype Request = PostRequest(path: string, json: Option<map<string, JsonField>>)

  /** What a success hook asks of the query client. */
  datatype CacheEffect = Invalidate(prefix: QueryKey) | Remove(prefix: QueryKey) | NoEffect

  /** The request `mutationFn` sends. */
  function RequestOf(m: Mutation): Request {
    match m
    case Login(username, password) =>
      PostRequest("api/auth/login", Some(map["username" := FString(username), "password" := FString(password)]))
    case Logout => PostRequest("api/auth/logout", None)
    case CreateForum(title, slug, description, category) =>
      PostRequest("api/forums", Some(map["title" := FString(title), "slug" := FString(slug),
                                        "description" := FString(description), "category" := FString(category)]))
    case CreatePost(slug, title, content, tags) =>
      PostRequest("api/forums/" + slug + "/posts",
                  Some(map["title" := FString(title), "content" := FString(content), "tags" := FStrings(tags)]))
    case CreateComment(slug, postNumber, content) =>
      PostRequest("api/forums/" + slug + "/posts/" + postNumber + "/comments", Some(map["content" := FString(content)]))
    case ChangePassword(currentPassword, newPassword) =>
      PostRequest("api/profile/change-password",
                  Some(map["currentPassword" := FString(currentPassword), "newPassword" := FString(newPassword)]))
  }

  /** The instruction the mutation's `onSuccess` hook issues. `invalidateQueries()` without a filter is the empty prefix. */
  function OnSuccess(m: Mutation): CacheEffect {
    match m
    case Login(_, _) => Invalidate([])
    case Logout => Remove(Key(CurrentUser))
    case CreateForum(_, _, _, _) => Invalidate(Key(Forums))
    case CreatePost(slug, _, _, _) => Invalidate([Str("posts"), Str(slug)])
    case CreateComment(slug, postNumber, _) => Invalidate(Key(Comments(slug, postNumber)))
    case ChangePassword(_, _) => NoEffect
  }

  /** The effect reaches the entry under `key`. */
  predicate Touches(effect: CacheEffect, key: QueryKey) {
    match effect
    case Invalidate(prefix) => HasPrefix(key, prefix)
    case Remove(prefix) => HasPrefix(key, prefix)
    case NoEffect => false
  }

  /**
   * Which cached queries each mutation's success reaches: login every one, logout only the
   * current user (and only logout deletes), create-forum the forum list, create-post every page
   * of that forum's posts and no other forum's, create-comment that post's comments, and
   * change-password none.
   */
  lemma SuccessScope(m: Mutation, q: Query)
    ensures Touches(OnSuccess(m), Key(q)) <==>
              match m
              case Login(_, _) => true
              case Logout => q == CurrentUser
              case CreateForum(_, _, _, _) => q == Forums
              case CreatePost(slug, _, _, _) => q.Posts? && q.slug == slug
              case CreateComment(slug, postNumber, _) => q == Comments(slug, postNumber)
              case ChangePassword(_, _) => false
    ensures OnSuccess(m).Remove? <==> m.Logout?
  {
    match m
    case Logout => ExactKeyMatchesOnlyItself(CurrentUser, q);
    case CreateForum(_, _, _, _) => ExactKeyMatchesOnlyItself(Forums, q);
    case CreatePost(slug, _, _, _) => PostsFamilyScope(slug, q);
    case CreateComment(slug, postNumber, _) => ExactKeyMatchesOnlyItself(Comments(slug, postNumber), q);
    case _ =>
  }

  /**
   * Each request carries the mutation's own arguments: the slug and the post number go into the
   * path, every other argument into the body under its own name, and nothing else is sent.
   */
  lemma RequestBodies(m: Mutation)
    ensures m.Logout? <==> RequestOf(m).json.None?
    ensures m.Login? ==> RequestOf(m).json.value == map["username" := FString(m.username), "password" := FString(m.password)]
    ensures m.CreateForum? ==>
              RequestOf(m).json.value == map["title" := FString(m.title), "slug" := FString(m.slug),
                                             "description" := FString(m.description), "category" := FString(m.category)]
    ensures m.CreatePost? ==>
              && RequestOf(m).path == "api/forums/" + m.slug + "/posts"
              && RequestOf(m).json.value == map["title" := FString(m.title), "content" := FString(m.content), "tags" := FStrings(m.tags)]
    ensures m.CreateComment? ==>
              && RequestOf(m).path == "api/forums/" + m.slug + "/posts/" + m.postNumber + "/comments"
              && RequestOf(m).json.value == map["content" := FString(m.content)]
    ensures m.ChangePassword? ==>
              RequestOf(m).json.value == map["currentPassword" := FString(m.currentPassword), "newPassword" := FString(m.newPassword)]
    ensures m.CreatePost? || m.CreateComment? ==> "slug" !in RequestOf(m).json.value && "postNumber" !in RequestOf(m).json.value
  {
  }

  /**
   * A mutation that creates something posts to the path its list is read from, and its success
   * hook reaches that list: the forum list, every page of that forum's posts, that post's comments.
   */
  lemma {:induction false} WriteGoesWhereListIsRead(m: Mutation, q: Query)
    requires match m
             case CreateForum(_, _, _, _) => q == Forums
             case CreatePost(slug, _, _, _) => q.Posts? && q.slug == slug
             case CreateComment(slug, postNumber, _) => q == Comments(slug, postNumber)
             case _ => false
    ensures RequestOf(m).path == Endpoint(q)
    ensures Touches(OnSuccess(m), Key(q))
  {
    SuccessScope(m, q);
  }

  /** Runs a success hook on the shared query client. */
  method ApplySuccess<D>(client: QueryClient<D>, m: Mutation)
    modifies client
    ensures OnSuccess(m).Remove? ==>
              forall k :: k in client.entries <==> k in old(client.entries) && !Touches(OnSuccess(m), k)
    ensures !OnSuccess(m).Remove? ==> client.entries.Keys == old(client.entries.Keys)
    ensures forall k :: k in client.entries ==> client.entries[k].data == old(client.entries[k].data)
    ensures forall k :: k in client.entries ==>
              client.entries[k].stale == (old(client.entries[k].stale) || (OnSuccess(m).Invalidate? && Touches(OnSuccess(m), k)))
  {
    match OnSuccess(m)
    case Invalidate(prefix) => client.InvalidateQueries(prefix);
    case Remove(prefix) => client.RemoveQueries(prefix);
    case NoEffect =>
  }

  /** A settled mutation: the success hook runs only on success; a failure leaves the cache alone. */
  method Settle<D>(client: QueryClient<D>, m: Mutation, outcome: Result<(), AppError>)
    modifies client
    ensures outcome.Err? ==> client.entries == old(client.entries)
    ensures outcome.Ok? && OnSuccess(m).Remove? ==>
              forall k :: k in client.entries <==> k in old(client.entries) && !Touches(OnSuccess(m), k)
    ensures outcome.Ok? && !OnSuccess(m).Remove? ==> client.entries.Keys == old(client.entries.Keys)
    ensures outcome.Ok? ==> forall k :: k in client.entries ==> client.entries[k].data == old(client.entries[k].data)
    ensures outcome.Ok? ==> forall k :: k in client.entries ==>
              client.entries[k].stale == (old(client.entries[k].stale) || (OnSuccess(m).Invalidate? && Touches(OnSuccess(m), k)))
    ensures outcome.Ok? ==> forall k :: k in old(client.entries) && !Touches(OnSuccess(m), k) ==>
                                          k in client.entries && client.entries[k] == old(client.entries[k])
  {
    if outcome.Ok? {
      ApplySuccess(client, m);
    }
  }

  /** After a successful logout the current user is no longer cached: the next read fetches it. */
  method LogoutThenReadCurrentUser<D>(client: QueryClient<D>, fetched: Result<D, AppError>) returns (r: Result<D, AppError>)
    modifies client
    ensures r == fetched
  {
    Settle(client, Logout, Ok(()));
    r := client.EnsureQueryData(Key(CurrentUser), fetched);
  }

  /** After creating a post in forum `slug`, a cached page of another forum is left exactly as it was. */
  method CreatePostSparesOtherForums<D>(client: QueryClient<D>, slug: string, other: Query,
                                        title: string, content: string, tags: seq<string>)
    requires other.Posts? && other.slug != slug
    modifies client
    ensures Key(other) in old(client.entries) ==>
              Key(other) in client.entries && client.entries[Key(other)] == old(client.entries[Key(other)])
  {
    SuccessScope(CreatePost(slug, title, content, tags), other);
    Settle(client, CreatePost(slug, title, content, tags), Ok(()));
  }
}
