# Forum client: session, cache and form rules

This project models the decision logic of a browser client for a forum application, and proves
properties of that model. The client is a React application that talks to a REST backend. Most
of it is presentation. What is modelled here is the thin layer of rules around it:

- the HTTP client's response hook (`afterResponse` in `src/lib/api.ts`). It is the runtime
  session guard: a 401 anywhere except on the login page sends the user to `/login`, keeping the
  current URL as `redirect`. It also shapes every non-ok response into an `AppError` whose
  message comes from the body's `detail`, else its `message`, else `HTTP <status> <statusText>`;
- the query keys, the posts query's search parameters and field renaming, and which cache
  entries each mutation's success hook invalidates or removes. The query cache is a class over a
  map from keys to entries with a stale flag;
- the entry guard of the protected area (`beforeLoad`) and its loader;
- the cached lookups `useUser` and `useForum`;
- the grouping of forums by category on the forum list page;
- the validators, payloads and navigations of the login page, the create-forum page and the
  change-password dialog, including the dialog's reset behaviour.

`src/lib/api.ts` is modelled by three modules: `HttpClient` (the response hook), `QueryKeys`
(the queries) and `Mutations` (the mutations). `QueryCache` models the query library's client
that the mutations and the entry guard act on. Each other source file has one module:
`AuthGuard`, `CacheLookups`, `ForumGroups`, `LoginPage`, `NewForumPage` and
`ChangePasswordDialog`. The supporting modules are `Wrappers` (Option and Result),
`JsStrings` (JavaScript `trim`, `.length` in UTF-16 code units, `String(n)` and `includes`),
`AppErrors`, `Entities` and `Navigation`.

Modelling choices:

- `AppError.codeFromStatus` and `AppError.fromUnknown` are in the client's error module, which is
  not part of this model. They are passed as function parameters, so no status-to-code mapping is
  assumed.
- The parsed response body is a value: a JSON object (a map from field names to "string" or
  "not a string"), valid JSON that is not an object, `null`, or a body that does not parse.
  Reading `data.detail` on `null` throws a TypeError. The hook catches it, so `null` gives the
  fallback message, exactly like a body that does not parse.
- Key filters use prefix matching on the key tuple. That is how the query library matches a
  filter key against cached keys. It is a modelling assumption, because the library's code is not
  part of this model. `invalidateQueries()` with no filter is the empty prefix.
- `ensureQueryData` returns cached data whether it is stale or not. When the key is absent it
  returns the fetch's outcome, which is a parameter, and stores it only on success.
- The form validators check JavaScript `.length`, which counts UTF-16 code units. So lengths are
  computed with `Utf16Length`: one character above U+FFFF counts 2.
- The change-password dialog refuses a submission while the confirmation field shows an error.
  Otherwise its submit gate is the form-level validator plus the confirmation field's validator,
  re-run at submit time. This is an assumption about the form library.
- The entry guard rethrows the original error, not the normalised one; the error view
  normalises it later. On a successful password change the dialog calls the parent's
  `onOpenChange(false)` directly, not `handleOpenChange`. So the form is reset but the mutation state is not.

## Model

| member | source | states |
|---|---|---|
| HttpClient.AfterResponse | src/lib/api.ts:19-61 | A navigation is requested iff the status is 401 and the pathname is not `/login`. It goes to `/login` with `redirect` = href and `replace: true`. An ok (2xx) response is returned unchanged. Every other response throws `AppError(codeFromStatus(status), ErrorMessage(response))`, so a 401 off the login page both navigates and throws. |
| HttpClient.MessagePriority | src/lib/api.ts:42-52 | The message is `detail` if it is a string that is not all whitespace in a JSON-typed object body. Otherwise it is `message` under the same condition. Otherwise it is `HTTP <status> <statusText>`. |
| HttpClient.NonJsonBodyGivesFallback | src/lib/api.ts:43-56 | Without `application/json` in the content type, or when the body is not an object (does not parse, or is `null`, whose field read throws and is caught), the message is the status line. |
| HttpClient.MessageNotBlank | src/lib/api.ts:42-52 | The message of a thrown error is never empty and never whitespace only. |
| HttpClient.FallbackNamesStatus | src/lib/api.ts:42 | The fallback begins `HTTP `, then the decimal digits of the status, which read back as the status. |
| HttpClient.DetailExample | src/lib/api.ts:48-49 | A 422 with JSON body `{"detail": "title too short"}` has the message `title too short`. |
| JsStrings.TrimEmptyIffBlank | src/lib/api.ts:48 | `s.trim() === ""` holds exactly when every character of `s` is JavaScript whitespace. |
| JsStrings.DecimalRoundTrip | src/lib/api.ts:42 | `String(status)` is non-empty and all digits, has no leading zero, and reads back as the status. |
| JsStrings.Utf16LengthBounds | src/routes/login.tsx:25-26 | A string's JavaScript length is between its character count and twice that, and is 0 only for the empty string. |
| QueryKeys.KeyRoundTrip | src/lib/api.ts:66-133 | Each query's key reads back as that query. |
| QueryKeys.DecodedKeyIsKey | src/lib/api.ts:66-133 | A key that reads back as a query is that query's key. |
| QueryKeys.KeyInjective | src/lib/api.ts:66-133 | Two queries share a key iff they are the same query, so distinct queries never collide in the cache. |
| QueryKeys.ExactKeyMatchesOnlyItself | src/lib/api.ts:158-193 | A full query key used as a filter matches that query's key and no other. |
| QueryKeys.PostsFamilyScope | src/lib/api.ts:181 | The filter `["posts", slug]` matches a query's key iff it is a posts query of that forum, whatever its page and page size. |
| QueryKeys.EndpointNamesResource | src/lib/api.ts:71-132 | The GET path of a posts, post or comments query includes the forum's slug. Below a post it also includes the post number. The page and page size never change the path. |
| JsStrings.IncludesMiddle | src/lib/api.ts:94 | A string built as `before + sub + after` includes `sub`. |
| QueryKeys.PostsSearchParams | src/lib/api.ts:89-95 | `page` is present iff a page is given, with that value. `page_size` is present iff a page size is given, with that value. No other parameter appears. No parameters are sent when neither is given. |
| QueryKeys.RenamingRoundTrip | src/lib/api.ts:105-111 | Renaming `total_count/page_size/total_pages` to `totalCount/pageSize/totalPages` is a bijection. `total_count`, `page_size` and `total_pages` become `totalCount`, `pageSize` and `totalPages` respectively, and `items` and `page` are copied unchanged. |
| QueryCache.QueryClient.InvalidateQueries | src/lib/api.ts:145 | The same keys stay cached with the same data. An entry is stale afterwards iff it was stale before or its key starts with the filter. |
| QueryCache.QueryClient.RemoveQueries | src/lib/api.ts:158 | Exactly the entries whose keys start with the filter are deleted. The rest are unchanged. |
| QueryCache.QueryClient.EnsureQueryData | src/routes/_auth/route.tsx:19 | A cached key gives its data without a change. An absent key gives the fetch's outcome, which is stored fresh only on success. |
| Mutations.SuccessScope | src/lib/api.ts:142-195 | Login reaches every key. Logout reaches only `currentUser`, and it is the only mutation that removes. createForum reaches `forums`. createPost reaches every page of that forum's posts and no other forum's. createComment reaches that post's comments. changePassword reaches nothing. |
| Mutations.RequestBodies | src/lib/api.ts:141-201 | Logout has no body. Every other body holds each argument under its own name and nothing else: login's username and password, a forum's four fields, a post's title, content and tags, a comment's content, the current and new passwords. A post's slug and a comment's slug and post number go into the path, not the body. |
| Mutations.WriteGoesWhereListIsRead | src/lib/api.ts:79-193 | Creating a forum, post or comment posts to the same path its list is read from, and that mutation's success hook reaches that list. |
| Mutations.ApplySuccess | src/lib/api.ts:142-195 | Data is never changed. Only logout deletes, and only the entries it reaches. The entries an invalidating mutation reaches become stale. Nothing else changes. |
| Mutations.Settle | src/lib/api.ts:136-204 | A failed mutation leaves the cache as it was. After a successful logout, exactly the entries it reaches are gone. After any other success, the same keys stay cached. Data never changes. An entry is stale iff it was before or an invalidating hook reaches it. Entries the hook does not reach are unchanged. |
| Mutations.LogoutThenReadCurrentUser | src/lib/api.ts:155-159 | After a successful logout, the next read of the current user returns the new fetch's outcome, not cached data. |
| Mutations.CreatePostSparesOtherForums | src/lib/api.ts:180-182 | After a post is created in one forum, a cached posts page of another forum is exactly as it was. |
| AuthGuard.BeforeLoad | src/routes/_auth/route.tsx:17-41 | A successful current-user read allows entry with that user. A normalised code of `unauthorized` or `forbidden` redirects to `/login` with `redirect` = location.href. Any other code rethrows the original error and never redirects. |
| AuthGuard.EntryGuardOnFailedProfileRead | src/routes/_auth/route.tsx:18-39 | When the profile request fails through the response hook, and `fromUnknown` returns an `AppError` unchanged, the guard redirects iff `codeFromStatus(status)` is unauthorized or forbidden. Otherwise it rethrows the hook's error. |
| AuthGuard.Loader | src/routes/_auth/route.tsx:42-49 | The loader succeeds iff both `forums` and `users` are in the cache afterwards. Each list is there iff it was already cached or its fetch succeeded. A newly cached list holds the fetched data and is fresh. A failure is one of the fetch failures. Existing entries are untouched, and no other key is added. |
| CacheLookups.FindFirst | src/hooks/useCache.ts:29 | The index found holds a match and no earlier element matches. No index means no element matches. |
| CacheLookups.UseUser | src/hooks/useCache.ts:27-34 | Returns the first cached user with that id, which is a member of the list. Fails with `AppError("not_found", "User not found")` iff no user has that id. |
| CacheLookups.UseForum | src/hooks/useCache.ts:48-55 | Returns the first cached forum with that slug, which is a member of the list. Fails with `AppError("not_found", "Forum not found")` iff no forum has that slug. |
| CacheLookups.UniqueIdsDetermineUser | src/hooks/useCache.ts:29 | When ids are unique, the lookup returns the one user with that id. |
| ForumGroups.GroupByCategory | src/routes/_auth/index.tsx:13-21 | The reduce throws iff some forum's category names an `Object.prototype` member. It throws at the first such forum, naming its category. Otherwise the record filled in place, listed as entries, equals `Grouped(forums)`: categories in order of first appearance, each with its forums in input order. |
| ForumGroups.CreatableCategoriesGroup | src/routes/_auth/index.tsx:14-15 | Forums whose categories are among the three a forum can be created with never make the grouping throw. |
| ForumGroups.CategoriesAreTheCategories | src/routes/_auth/index.tsx:13-14 | A category is listed iff some forum has it, and no category is listed twice. |
| ForumGroups.NoEmptyGroup | src/routes/_auth/index.tsx:14 | Every listed category has at least one forum. |
| ForumGroups.GroupKeepsInputOrder | src/routes/_auth/index.tsx:15 | A group's k-th forum is the input forum at the k-th ascending index of that category. Every listed index holds a forum of that category, and no forum of that category is missed. |
| ForumGroups.CategoriesInFirstAppearanceOrder | src/routes/_auth/index.tsx:13-21 | When category A is listed before category B, some forum of A comes before every forum of B in the input. |
| ForumGroups.EveryForumInItsGroup | src/routes/_auth/index.tsx:14-15 | Every forum is in the group of its own category. |
| ForumGroups.GroupsPartitionForums | src/routes/_auth/index.tsx:13-17 | The groups together hold exactly the input forums as a multiset: none is lost and none is duplicated. |
| LoginPage.ValidateSearch | src/routes/login.tsx:10-12 | The search is accepted iff `redirect` is absent or a string. When accepted, `redirect` is present iff it was given, with the same value. |
| LoginPage.SubmitLogin | src/routes/login.tsx:22-30 | A login is submitted iff the username and the password each have JavaScript length 2 to 100. The request carries exactly the form's username and password. |
| LoginPage.AfterLogin | src/routes/login.tsx:33 | After login the page navigates to `redirect` if present, else to `/`. |
| LoginPage.ShortCredentialsRejected | src/routes/login.tsx:25-26 | The empty form and a one-character name below U+10000 are rejected. |
| LoginPage.AstralCharacterCountsTwice | src/routes/login.tsx:25-26 | A single character above U+FFFF has length 2, so it passes the minimum length. |
| LoginPage.ReturnToRequestedPage | src/routes/login.tsx:33 | The URL that the session redirect stores as `redirect` passes `validateSearch`, and a successful login goes to it. |
| NewForumPage.SubmitForum | src/routes/_auth/forums/new.tsx:28-37 | A forum is submitted iff the title is 3 to 100 long, the slug 3 to 50, the description 10 to 500, and the category is Technology, Science or Art. The request goes to `api/forums` and its body holds exactly the form's title, slug, description and category. |
| NewForumPage.AfterCreate | src/routes/_auth/forums/new.tsx:37-39 | On success the page navigates to `/`. |
| NewForumPage.DefaultFormRejected | src/routes/_auth/forums/new.tsx:25 | The default form, whose category is `""`, is never submitted. |
| NewForumPage.UnknownCategoryRejected | src/routes/_auth/forums/new.tsx:32 | A category other than the three blocks submission, whatever the other fields hold. |
| ChangePasswordDialog.ConfirmError | src/routes/_auth/-components/layout/ChangePasswordDialog.tsx:74-79 | "Passwords don't match" is reported iff the confirmation and the new password are both non-empty and differ. |
| ChangePasswordDialog.EmptyFieldNoMismatch | src/routes/_auth/-components/layout/ChangePasswordDialog.tsx:76 | An empty confirmation or an empty new password never gives the mismatch error. |
| ChangePasswordDialog.Payload | src/routes/_auth/-components/layout/ChangePasswordDialog.tsx:25-29 | The request body has exactly `currentPassword` and `newPassword`. The confirmation is never sent. |
| ChangePasswordDialog.SubmittedPasswordsMatch | src/routes/_auth/-components/layout/ChangePasswordDialog.tsx:18-22 | A form that passes both validators has a confirmation equal to the new password. |
| ChangePasswordDialog.Dialog.constructor | src/routes/_auth/-components/layout/ChangePasswordDialog.tsx:12-16 | The dialog starts closed and idle, with the three fields empty. |
| ChangePasswordDialog.Dialog.Edit | src/routes/_auth/-components/layout/ChangePasswordDialog.tsx:74-80 | Typing changes only that field. Only a change to the confirmation re-runs its validator, against the current new password. |
| ChangePasswordDialog.Dialog.Submit | src/routes/_auth/-components/layout/ChangePasswordDialog.tsx:24-30 | A mutation is sent iff none is pending, the confirmation field shows no error, and the form passes both validators re-run at submit. It then starts with the payload. Otherwise nothing is sent. |
| ChangePasswordDialog.Dialog.Settle | src/routes/_auth/-components/layout/ChangePasswordDialog.tsx:31-35 | On success the form is reset to empty and the dialog is closed. On failure the error is kept. A mutation reset while pending reports nothing. |
| ChangePasswordDialog.Dialog.HandleOpenChange | src/routes/_auth/-components/layout/ChangePasswordDialog.tsx:41-47 | Closing resets the form and the mutation. Opening changes neither. `open` becomes the new value. |

## Left out

- The transport (ky, `fetch`, cookies, `credentials: "include"`, `retry: 0`), `window.location` and `router.navigate` are I/O. Responses and locations are inputs. Navigations are output values.
- The startup check for the missing base-URL variable (src/lib/api.ts:9-11) is configuration I/O.
- JSON parsing is not modelled. The parsed body is an input value.
- The error module (`AppError.codeFromStatus`, `AppError.fromUnknown`, `.title`) is not part of this model. Its two functions are parameters.
- Query library internals are left out: in-flight deduplication, suspension of `useSuspenseQuery`, the `staleTime`/`gcTime` timers and the refetch that `invalidateQueries` triggers for active queries. `useCurrentUser`, `useUsers` and `useForums` are plain cache reads; the lookups take the cached list as input.
- AuthGuard.Loader: `Promise.all` runs the two fetches concurrently. When both fail, which failure is reported depends on timing, so the contract only says it is one of them.
- The posts `queryFn` performs the request and renames the reply. The model covers the search parameters and the renaming, but not the request itself. Page numbers are JavaScript numbers; they are modelled as integers.
- Routing and form internals (TanStack Router and Form) are not modelled. The route tree, `redirect()` as control flow, toasts and the rendering of the error view are UI or library code.
- ForumGroups: listing order is insertion order. The model does not cover categories that look like array indices (`"0"`, `"42"`), which JavaScript would list first in ascending numeric order. The TypeError for names of `Object.prototype` members is modelled.
- ChangePasswordDialog.Dialog.Submit: an error from the form-level validator is not kept between submissions. The model re-checks that validator on every submission; only the confirmation field's shown error blocks a submission.
- Presentational components, `useAppForm`, the type aliases and the build configuration hold no logic.
