/**
 * The read side of src/lib/api.ts (`api.queries`): which cache key each query uses, which
 * endpoint it fetches, which queries never go stale, how the posts query builds its search
 * parameters and how it renames the fields of a page.
 *
 * A query key is a tuple; it is modelled as a sequence of key parts. Matching a key against a
 * filter is prefix matching on that sequence, which is how the query library compares a filter
 * key with a cached key (a modelling assumption: the library's code is not part of this model).
 */
module QueryKeys {
  import opened Wrappers
  import opened Entities
  import opened JsStrings

  /** One element of a key tuple; `Undefined` stands for an omitted optional argument. */
  datatype KeyPart = Str(s: string) | Num(n: int) | Undefined

  type QueryKey = seq<KeyPart>

  /** The six queries of the client, with their parameters. */
  datatype Query =
    | CurrentUser
    | Forums
    | Posts(slug: string, page: Option<int>, pageSize: Option<int>)
    | PostDetail(slug: string, postNumber: string)
    | Users
    | Comments(slug: string, postNumber: string)

  function OptionalPart(n: Option<int>): KeyPart {
    if n.Some? then Num(n.value) else Undefined
  }

  /** The `queryKey` of each query. */
  function Key(q: Query): QueryKey {
    match q
    case CurrentUser => [Str("currentUser")]
    case Forums => [Str("forums")]
    case Posts(slug, page, pageSize) => [Str("posts"), Str(slug), OptionalPart(page), OptionalPart(pageSize)]
    case PostDetail(slug, postNumber) => [Str("post"), Str(slug), Str(postNumber)]
    case Users => [Str("users")]
    case Comments(slug, postNumber) => [Str("comments"), Str(slug), Str(postNumber)]
  }

  function OptionalOf(p: KeyPart): Option<Option<int>> {
    match p
    case Num(n) => Some(Some(n))
    case Undefined => Some(None)
    case Str(_) => None
  }

  /** Reads a key back as the query it addresses, if it is the key of one. */
  function QueryOf(key: QueryKey): Option<Query> {
    if |key| == 1 && key[0] == Str("currentUser") then Some(CurrentUser)
    else if |key| == 1 && key[0] == Str("forums") then Some(Forums)
    else if |key| == 1 && key[0] == Str("users") then Some(Users)
    else if |key| == 4 && key[0] == Str("posts") && key[1].Str?
            && OptionalOf(key[2]).Some? && OptionalOf(key[3]).Some?
    then Some(Posts(key[1].s, OptionalOf(key[2]).value, OptionalOf(key[3]).value))
    else if |key| == 3 && key[0] == Str("post") && key[1].Str? && key[2].Str?
    then Some(PostDetail(key[1].s, key[2].s))
    else if |key| == 3 && key[0] == Str("comments") && key[1].Str? && key[2].Str?
    then Some(Comments(key[1].s, key[2].s))
    else None
  }

  /** Every query's key reads back as that query. */
  lemma KeyRoundTrip(q: Query)
    ensures QueryOf(Key(q)) == Some(q)
  {
    match q
    case Posts(slug, page, pageSize) =>
      assert OptionalOf(OptionalPart(page)) == Some(page);
      assert OptionalOf(OptionalPart(pageSize)) == Some(pageSize);
    case _ =>
  }

  /** A key that reads back as a query is that query's key. */
  lemma DecodedKeyIsKey(key: QueryKey)
    requires QueryOf(key).Some?
    ensures Key(QueryOf(key).value) == key
  {
    var q := QueryOf(key).value;
    if q.Posts? {
      assert key[2] == OptionalPart(q.page);
      assert key[3] == OptionalPart(q.pageSize);
    }
  }

  /** Distinct queries never share a cache entry: equal keys mean equal queries. */
  lemma KeyInjective(q1: Query, q2: Query)
    ensures Key(q1) == Key(q2) <==> q1 == q2
  {
    KeyRoundTrip(q1);
    KeyRoundTrip(q2);
  }

  /** A filter key matches every cached key that starts with it. */
  predicate HasPrefix(key: QueryKey, prefix: QueryKey) {
    |prefix| <= |key| && key[..|prefix|] == prefix
  }

  /** A full query key used as a filter matches that query only. */
  lemma ExactKeyMatchesOnlyItself(q0: Query, q: Query)
    ensures HasPrefix(Key(q), Key(q0)) <==> q == q0
  {
    if HasPrefix(Key(q), Key(q0)) {
      assert Key(q)[0] == Key(q0)[0];
      assert |Key(q)| == |Key(q0)|;
      assert Key(q) == Key(q0);
      KeyInjective(q, q0);
    }
  }

  /** The filter `["posts", slug]` matches the posts of forum `slug`, on every page and page size, and nothing else. */
  lemma PostsFamilyScope(slug: string, q: Query)
    ensures HasPrefix(Key(q), [Str("posts"), Str(slug)]) <==> q.Posts? && q.slug == slug
  {
    if HasPrefix(Key(q), [Str("posts"), Str(slug)]) {
      assert Key(q)[0] == Str("posts");
      assert Key(q)[1] == Str(slug);
    }
  }

  /** Path, relative to the API base URL, of the GET request each query issues. */
  function Endpoint(q: Query): string {
    match q
    case CurrentUser => "api/profile"
    case Forums => "api/forums"
    case Posts(slug, _, _) => "api/forums/" + slug + "/posts"
    case PostDetail(slug, postNumber) => "api/forums/" + slug + "/posts/" + postNumber
    case Users => "api/users"
    case Comments(slug, postNumber) => "api/forums/" + slug + "/posts/" + postNumber + "/comments"
  }

  /**
   * The request path names the resource the query reads: the forum's slug and, below a post,
   * its number. The page and the page size are not part of the path; they go into the search
   * parameters.
   */
  lemma EndpointNamesResource(q: Query)
    ensures q.Posts? || q.PostDetail? || q.Comments? ==> Includes(Endpoint(q), q.slug)
    ensures q.PostDetail? || q.Comments? ==> Includes(Endpoint(q), q.postNumber)
    ensures q.Posts? ==> forall page, pageSize :: Endpoint(Posts(q.slug, page, pageSize)) == Endpoint(q)
  {
    match q
    case Posts(slug, _, _) =>
      IncludesMiddle("api/forums/", slug, "/posts");
    case PostDetail(slug, postNumber) =>
      var path := "api/forums/" + slug + "/posts/" + postNumber;
      assert path + "" == path;
      IncludesBoth("api/forums/", slug, "/posts/", postNumber, "");
    case Comments(slug, postNumber) =>
      IncludesBoth("api/forums/", slug, "/posts/", postNumber, "/comments");
    case _ =>
  }

  lemma IncludesBoth(a: string, x: string, b: string, y: string, c: string)
    ensures Includes(a + x + b + y + c, x)
    ensures Includes(a + x + b + y + c, y)
  {
    assert a + x + b + y + c == a + x + (b + y + c);
    IncludesMiddle(a, x, b + y + c);
    IncludesMiddle(a + x + b, y, c);
  }

  /** The search parameters of the posts request: only the ones given, and none at all when neither is given. */
  method PostsSearchParams(page: Option<int>, pageSize: Option<int>) returns (searchParams: Option<map<string, int>>)
    ensures searchParams.None? <==> page.None? && pageSize.None?
    ensures searchParams.Some? ==>
              && searchParams.value.Keys <= {"page", "page_size"}
              && ("page" in searchParams.value <==> page.Some?)
              && ("page" in searchParams.value ==> searchParams.value["page"] == page.value)
              && ("page_size" in searchParams.value <==> pageSize.Some?)
              && ("page_size" in searchParams.value ==> searchParams.value["page_size"] == pageSize.value)
  {
    var params: map<string, int> := map[];
    if page.Some? {
      params := params["page" := page.value];
    }
    if pageSize.Some? {
      params := params["page_size" := pageSize.value];
    }
    searchParams := if |params| > 0 then Some(params) else None;
  }

  /** A page as the server sends it, in its own field names. */
  datatype ServerPage<T> = ServerPage(items: seq<T>, total_count: int, page: int, page_size: int, total_pages: int)

  /** The renaming the posts query applies to the server's page. */
  function ToPaginated<T>(raw: ServerPage<T>): PaginatedResponse<T> {
    PaginatedResponse(raw.items, raw.total_count, raw.page, raw.page_size, raw.total_pages)
  }

  function FromPaginated<T>(p: PaginatedResponse<T>): ServerPage<T> {
    ServerPage(p.items, p.totalCount, p.page, p.pageSize, p.totalPages)
  }

  /** The renaming loses and invents nothing: it is a bijection between the two shapes. */
  lemma RenamingRoundTrip<T>(raw: ServerPage<T>, p: PaginatedResponse<T>)
    ensures FromPaginated(ToPaginated(raw)) == raw
    ensures ToPaginated(FromPaginated(p)) == p
    ensures ToPaginated(raw).items == raw.items && ToPaginated(raw).page == raw.page
    ensures && ToPaginated(raw).totalCount == raw.total_count
            && ToPaginated(raw).pageSize == raw.page_size
            && ToPaginated(raw).totalPages == raw.total_pages
  {
  }
}
