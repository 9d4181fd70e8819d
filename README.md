# Blog client: page cache, request builders, session and forms

A model of the client-side core of a single-page blog client for a RealWorld-style article API.
The client shows article lists page by page (5 articles per page). Signed-in users can favorite,
create, edit and delete articles, and can sign up, sign in and edit their profile.

The model covers these parts of the client:

- **Optimistic page-cache patches** (`QueryCache`, `LikeArticleApi`, `CreateArticleApi`,
  `DeleteArticleApi`, `EditArticleApi`).
  - The cached `getArticles` pages live in a class `ArticlesCache`, together with postApi's set of
    stale tags.
  - A mutation patches the cached page in place (replace at an index, `unshift`, `splice`, count
    `+= 1` / `-= 1`). It then takes the server's answer as a `Remote` input. It reconciles on
    success, or restores the snapshot it captured on failure (`undo`), and finally dispatches its
    invalidation.
  - Every mutation method is proved against a pure page function: `TogglePatch`, `ReplaceFirst`,
    `Prepend`, `CreateReconcile`, `RemoveFirst` and `Settled`.
- **Request and tag builders** (`Requests`, `PostApi`, `AuthApi`, `BlogApi`). Each builder
  returns the `(method, url, body)` it sends and the tags it names.
  - Each builder is paired with a server-side `Decode` of requests, and proved to decode back to
    the endpoint and arguments it was called with. For the builders that put a slug in the path,
    this round trip needs the slug to have no `/` (`NoSlash`); a slug with a `/` reaches another
    URL, or none.
  - URLs embed integers as JavaScript renders them. Reading them back (`ParseDecimal`,
    `parseInt`) is proved to give the same numbers.
- **Session and posts slices** (`AuthSlice`, `PostsSlice`). Both are classes with the slice state
  as fields. The auth slice also has a field for its `localStorage` entry.
  - `setUser` and `logout` keep "a page reload restores this user" as an invariant.
  - `updateUser` does not persist.
- **The favorite toggle hook** (`LikeHooks`): the guest guard, the choice between favorite and
  unfavorite, and the rethrow of a failure.
- **Forms** (`FormRules`, `Patterns`, `AccountFields`, `ArticleForm`, `ServerErrors` and the page
  modules `SignUpForm`, `SignInForm`, `EditProfile`, `CreateArticlePage`, `EditArticlePage`).
  - Every validation rule set is given as a `Rules` value and evaluated in react-hook-form's order:
    `required`, the length bounds, the pattern, then the `validate` callbacks.
  - Each field's error function is proved to accept exactly the values the rules describe.
  - The email and URL regular expressions are hand-written recognisers. Each is proved equivalent
    to a literal reading of its pattern (`EmailShape`, `UrlShape`).
  - The tag-list editors and the blank-tag filter are sequence functions with their own lemmas.
  - The 422 error-to-field mapping is `ServerErrors.FieldErrors`.
  - Each page's `onSubmit` is a method over the slices and the cache. It returns what was sent,
    where the page navigates and which field errors it sets.

Inputs the program gets from its environment are parameters of the model:

- the server's answer (`Remote<T>`: `Success(value)` or `Failure(error)`, where the error has a
  status and an optional `errors` object);
- `Date.now()` (`now`) and `new Date().toISOString()` (`createdAt`);
- the stored `localStorage` entry (`AuthState.saved`);
- the `page` query parameter.

Where the code and the design notes of the project disagree, the model follows the code:

- The like, create, delete and edit endpoints live in their own `createApi` instances. Their
  `invalidatesTags` lists therefore only reach their own (query-less) caches. postApi's list
  entries are invalidated only by the explicit `postApi.util.invalidateTags(["Articles"])`
  dispatches: create and delete always, edit and the profile update on success, and the like
  endpoints never. The builders still return the declared tag lists, and each is proved to be
  the list the source names.
- The design notes ask for one entry per created article. The create path as written puts the
  provisional entry at the head of page (1, 5) and counts it. On success it looks the server's
  slug up, which never matches the provisional slug, so it prepends the server article and counts
  again. `CreateArticleApi.CreateCountsTwice` states this: two new entries and a count raised by 2.
- In `useLikeArticle`, the `updateQueryData("getArticleBySlug", …)` and `invalidateTags` calls
  after a successful toggle build actions that are never dispatched. They change nothing, and
  `LikeHooks.HandleFavoriteToggle` promises exactly that.
- blogApi's `registerUser` and `loginUser` send the same requests as authApi's. The model reuses
  `AuthApi.RegisterUserCall` and `AuthApi.LoginUserCall` for both.

## Model

| member | source | states |
|---|---|---|
| QueryCache.FirstIndex | src/features/Like/model/likeArticleApi.ts:30-32 | `findIndex` by slug: -1 exactly when the slug is absent, otherwise the first index holding it |
| QueryCache.FirstIndexOfSameSlugs | src/features/Like/model/likeArticleApi.ts:52-54 | the lookup depends only on the slugs, so a patch that keeps slugs keeps the index the reconcile finds |
| QueryCache.FindIndex | src/features/DeleteArticle/model/deleteArticleApi.ts:23 | the loop returns the first index with the slug, or -1 |
| QueryCache.ReplaceFirst | src/features/Like/model/likeArticleApi.ts:52-57 | the first entry with the slug becomes the given article; length, count and every other entry unchanged; absent slug leaves the page as it was |
| QueryCache.ArticlesCache.constructor | src/entities/Post/model/postApi.ts:5-8 | the cache starts with no pages, no stale tags and no detail entries |
| QueryCache.ArticlesCache.Store | src/entities/Post/model/postApi.ts:10-19 | a fulfilled `getArticles` stores its page under its key and nothing else changes |
| QueryCache.ArticlesCache.Snapshot | src/features/Like/model/likeArticleApi.ts:25-28 | the patch result remembers the key and the entry as it was (or its absence) |
| QueryCache.ArticlesCache.ReplaceAt | src/features/Like/model/likeArticleApi.ts:34-39 | the cached page's entry at the index is overwritten, nothing else changes |
| QueryCache.ArticlesCache.Unshift | src/features/CreateArticle/model/createArticleApi.ts:58 | the article is put at index 0 and the old entries follow in order |
| QueryCache.ArticlesCache.Splice | src/features/DeleteArticle/model/deleteArticleApi.ts:25 | the entry at the index is removed and the rest keep their order |
| QueryCache.ArticlesCache.AddToCount | src/features/DeleteArticle/model/deleteArticleApi.ts:26 | only `articlesCount` of the page moves by the given amount |
| QueryCache.ArticlesCache.Undo | src/features/Like/model/likeArticleApi.ts:61-63 | the entry is restored to the snapshot exactly, or the pages are left as they are when no entry was captured (the inverse of a patch to an uncached entry is empty) |
| QueryCache.ArticlesCache.InvalidateTags | src/features/DeleteArticle/model/deleteArticleApi.ts:38 | the named tags join the stale set; pages and details unchanged |
| QueryCache.ArticlesCache.StoreDetail | src/entities/Post/model/postApi.ts:20-24 | a fulfilled `getArticleBySlug` stores the article under its slug |
| LikeArticleApi.FavoriteArticleCall | src/features/Like/model/likeArticleApi.ts:15-18 | POST to `/articles/{slug}/favorite` decodes back to favorite of that slug; the tags declared at lines 66-69 are `{Articles, slug}` then `Articles` |
| LikeArticleApi.UnfavoriteArticleCall | src/features/Like/model/likeArticleApi.ts:75-78 | DELETE to the same URL decodes back to unfavorite of that slug; the tags declared at lines 126-129 are the same |
| LikeArticleApi.LikeKey | src/features/Like/model/likeArticleApi.ts:21-28 | the patched page is `(currentPage, 5)` with `currentPage` defaulting to 1 |
| LikeArticleApi.Toggled | src/features/Like/model/likeArticleApi.ts:34-39 | `favorited` is set and `favoritesCount` moves by exactly one (no clamp at 0); every other field is kept |
| LikeArticleApi.TogglePatch | src/features/Like/model/likeArticleApi.ts:29-40 | only the first entry with the slug changes, to its toggled copy; order, slugs, other entries and the count are untouched; absent slug leaves the page unchanged |
| LikeArticleApi.UnfavoriteUndoesFavorite | src/features/Like/model/likeArticleApi.ts:89-100 | unfavoriting right after favoriting an unfavorited entry gives back the page |
| LikeArticleApi.ReconcileSupersedesToggle | src/features/Like/model/likeArticleApi.ts:46-60 | the success reconcile overwrites the optimistic entry, so the page ends as if only the server article had been written |
| LikeArticleApi.Settled | src/features/Like/model/likeArticleApi.ts:20-64 | the pages after a toggle settles: only the key's page can change; failure or an uncached key leaves every page as it was; success leaves the server article at the slug's first index |
| LikeArticleApi.ApplyToggle | src/features/Like/model/likeArticleApi.ts:25-43 | the in-place patch leaves the page equal to `TogglePatch` and returns the snapshot |
| LikeArticleApi.ApplyReconcile | src/features/Like/model/likeArticleApi.ts:47-60 | the in-place reconcile leaves the page equal to `ReplaceFirst` with the server article |
| LikeArticleApi.RunToggle | src/features/Like/model/likeArticleApi.ts:20-64 | patch, then reconcile or undo: the pages end as `Settled`; postApi's stale tags are not touched |
| LikeArticleApi.FavoriteArticle | src/features/Like/model/likeArticleApi.ts:11-70 | sends the favorite call; the pages end as `Settled` with the flag `true`, which only the optimistic patch (`ApplyToggle`, `TogglePatch`) reads; the settled pages hold the server article on success and the snapshot on failure |
| LikeArticleApi.UnfavoriteArticle | src/features/Like/model/likeArticleApi.ts:71-130 | sends the unfavorite call; the pages end as `Settled` with the flag `false`, which only the optimistic patch (`ApplyToggle`, `TogglePatch`) reads; the settled pages hold the server article on success and the snapshot on failure |
| CreateArticleApi.CreateArticleCall | src/features/CreateArticle/model/createArticleApi.ts:23-27 | POST `/articles` with `{article}` decodes back to create of that article; the tags declared at line 90 are `Articles` |
| CreateArticleApi.ProvisionalSlug | src/features/CreateArticle/model/createArticleApi.ts:43-45 | the provisional slug is the lower-cased title with each white-space run replaced by one `-`, then `-` and the clock reading; it has no white space and no upper-case letter |
| CreateArticleApi.ProvisionalSlugOfTwoWords | src/features/CreateArticle/model/createArticleApi.ts:43-45 | two lower-case words with any white-space run between them give `<a>-<b>-<now>` |
| CreateArticleApi.ProvisionalSlugOfPlainTitle | src/features/CreateArticle/model/createArticleApi.ts:43-45 | a lower-case title without white space is the slug's stem as is, followed by `-` and the clock reading |
| CreateArticleApi.ProvisionalSlugsDifferInTime | src/features/CreateArticle/model/createArticleApi.ts:43-45 | two clock readings give two different slugs for one title |
| CreateArticleApi.Provisional | src/features/CreateArticle/model/createArticleApi.ts:42-57 | the provisional article carries the form fields, no favorites, and the session user as author, or `"unknown"`/`""` without one |
| CreateArticleApi.Prepend | src/features/CreateArticle/model/createArticleApi.ts:58-59 | the article is at index 0, the old entries follow in order and the count rises by 1 |
| CreateArticleApi.CreateReconcile | src/features/CreateArticle/model/createArticleApi.ts:64-82 | a server slug already on the page is replaced in place with the count kept; otherwise the server article is prepended |
| CreateArticleApi.CreateCountsTwice | src/features/CreateArticle/model/createArticleApi.ts:58-79 | with a fresh server slug the page gains the server article and the provisional one and its count rises by 2 |
| CreateArticleApi.CreateReplacesProvisional | src/features/CreateArticle/model/createArticleApi.ts:71-75 | were the server slug the provisional one, the provisional entry would be replaced and counted once |
| CreateArticleApi.ApplyPrepend | src/features/CreateArticle/model/createArticleApi.ts:47-61 | the in-place `unshift` and count step leave the page equal to `Prepend`, returning the snapshot |
| CreateArticleApi.ApplyCreateReconcile | src/features/CreateArticle/model/createArticleApi.ts:65-81 | the in-place reconcile leaves the page equal to `CreateReconcile` |
| CreateArticleApi.CreateArticle | src/features/CreateArticle/model/createArticleApi.ts:28-90 | page (1, 5) ends as reconcile-after-prepend on success and as before on failure; `Articles` goes stale either way |
| DeleteArticleApi.DeleteArticleCall | src/features/DeleteArticle/model/deleteArticleApi.ts:11-14 | DELETE `/articles/{slug}` decodes back to delete of that slug; the tags declared at line 40 are `Articles` |
| DeleteArticleApi.DeleteKey | src/features/DeleteArticle/model/deleteArticleApi.ts:15-16 | the patched page is `(page, 5)` with `page` defaulting to 1 |
| DeleteArticleApi.RemoveFirst | src/features/DeleteArticle/model/deleteArticleApi.ts:23-27 | the first entry with the slug is cut out, the rest keep their order and the count drops by 1; absent slug leaves list and count unchanged |
| DeleteArticleApi.RemoveFirstReinsert | src/features/DeleteArticle/model/deleteArticleApi.ts:34-35 | putting the removed entry back at its index gives back the list |
| DeleteArticleApi.RemoveFirstRemovesUnique | src/features/DeleteArticle/model/deleteArticleApi.ts:23-27 | a slug listed once is no longer on the page afterwards |
| DeleteArticleApi.ApplyRemove | src/features/DeleteArticle/model/deleteArticleApi.ts:18-30 | the in-place `splice` and count step leave the page equal to `RemoveFirst`, returning the snapshot |
| DeleteArticleApi.DeleteArticle | src/features/DeleteArticle/model/deleteArticleApi.ts:15-39 | the page keeps the removal on success and is restored on failure; `Articles` goes stale either way |
| EditArticleApi.UpdateArticleCall | src/features/EditArticle/model/editArticleApi.ts:24-28 | PUT `/articles/{slug}` with `{article}` decodes back to update of that slug and article; the tags declared at lines 37-40 are `{Articles, slug}` then `Articles` |
| EditArticleApi.CurrentPageIgnored | src/features/EditArticle/model/editArticleApi.ts:21-28 | `currentPage` has no influence on the request |
| EditArticleApi.UpdateArticle | src/features/EditArticle/model/editArticleApi.ts:29-36 | no page is patched; `Articles` goes stale only on success |
| PostApi.Offset | src/entities/Post/model/postApi.ts:15 | page 1 starts at offset 0; offsets of pages from 1 on are never negative |
| PostApi.NextPageOffset | src/entities/Post/model/postApi.ts:15 | consecutive pages start `limit` apart |
| PostApi.PagesDoNotOverlap | src/entities/Post/model/postApi.ts:15 | an earlier page ends before a later one starts |
| PostApi.GetArticlesCall | src/entities/Post/model/postApi.ts:14-18 | the list URL decodes back to the limit and the computed offset; tags are `Articles` |
| PostApi.GetArticleBySlugCall | src/entities/Post/model/postApi.ts:20-24 | GET `/articles/{slug}` decodes back to reading that slug; the entry provides `{Articles, slug}` only |
| PostApi.DeleteArticleCall | src/entities/Post/model/postApi.ts:25-34 | DELETE `/articles/{slug}` decodes back to delete of that slug; tags are `{Articles, slug}` then `Articles` |
| Requests.ListUrl | src/entities/Post/model/postApi.ts:16 | the template `/articles?limit=<l>&offset=<o>` reads back to `l` and `o` for all integers |
| Requests.ListQueryRoundTrip | src/entities/Post/model/postApi.ts:16 | the query part reads back to the two numbers it was written from |
| Requests.ArticleUrl | src/entities/Post/model/postApi.ts:21 | the template `/articles/{slug}` is never read as a list URL (line 16); for a slug without `/` it reads back to the slug and is not a favorite URL |
| Requests.FavoriteUrl | src/features/Like/model/likeArticleApi.ts:16 | the template `/articles/{slug}/favorite`, for a slug without `/`, reads back to the slug and is not an article URL |
| Requests.Decode | src/entities/Post/model/postApi.ts:14-34 | the remote API's routing, which has no counterpart in the client and is the reference every builder is checked against: a request reaches only an endpoint served under its own method, a GET or DELETE that reaches one has no body, and an article body reaches the create or update of that same article |
| Decimal.NatToString | src/entities/Post/model/postApi.ts:16 | `${n}` is a non-empty run of digits, a single digit exactly below 10 |
| Decimal.NatToStringValue | src/entities/Post/model/postApi.ts:16 | the digits written for `n` read back as `n` |
| Decimal.IntToString | src/entities/Post/model/postApi.ts:16 | `${i}` starts with `-` exactly for negative `i`, then digits |
| Decimal.ParseNatRoundTrip | src/entities/Post/model/postApi.ts:16 | a non-negative number's digits parse back to it |
| Decimal.ParseNegativeRoundTrip | src/entities/Post/model/postApi.ts:16 | a negative number's rendering parses back to it |
| Decimal.ParseDecimalRoundTrip | src/entities/Post/model/postApi.ts:16 | every integer's rendering parses back to it |
| Decimal.DigitPrefixLength | src/pages/EditArticle/ui/EditArticle.tsx:29 | the longest run of leading digits, followed by a non-digit or the end |
| Decimal.DigitPrefixOfDigits | src/pages/EditArticle/ui/EditArticle.tsx:29 | digits followed by a non-digit: the run is exactly the digits |
| Decimal.DigitRunValue | src/pages/EditArticle/ui/EditArticle.tsx:29 | the run read from a rendered number has that number's value |
| Decimal.ParseSignedNat | src/pages/EditArticle/ui/EditArticle.tsx:29 | an unsigned rendering followed by a non-digit parses to the number |
| Decimal.ParseSignedNegative | src/pages/EditArticle/ui/EditArticle.tsx:29 | a `-` rendering followed by a non-digit parses to the negative number |
| Decimal.ParseSigned | src/pages/EditArticle/ui/EditArticle.tsx:29 | after an optional sign, the leading digits: `None` (`NaN`) when the text opens with neither sign nor digit, a non-negative number when it opens with a digit, and a negative one only after `-` |
| Decimal.JsParseInt | src/pages/EditArticle/ui/EditArticle.tsx:29 | `parseInt(s, 10)` is `NaN` for white space alone and a non-negative number for text opening with a digit |
| Decimal.ParseSignedOfDigits | src/pages/EditArticle/ui/EditArticle.tsx:29 | an optional sign, digits and a non-digit read as the digits' value, negated after `-` |
| Decimal.JsParseIntOfDigits | src/pages/EditArticle/ui/EditArticle.tsx:29 | `parseInt` of white space, an optional sign, digits and a non-digit is the digits' value, negated after `-` (`"+5"` is 5, `" 007"` is 7) |
| Decimal.JsParseIntRoundTrip | src/pages/EditArticle/ui/EditArticle.tsx:29 | `parseInt(${i} + rest, 10)` is `i` whenever `rest` does not start with a digit |
| EditArticlePage.CurrentPageOfLink | src/pages/EditArticle/ui/EditArticle.tsx:29 | a `?page=` written from a number reads back as that number |
| EditArticlePage.CurrentPage | src/pages/EditArticle/ui/EditArticle.tsx:29 | a missing or empty `page` parameter means page 1 |
| EditArticlePage.Prefill | src/pages/EditArticle/ui/EditArticle.tsx:53-60 | the four form fields take the loaded article's values |
| EditArticlePage.ResubmitPrefilled | src/pages/EditArticle/ui/EditArticle.tsx:53-93 | saving the prefilled form sends the article's own content when no tag is blank |
| EditArticlePage.HandleSubmit | src/pages/EditArticle/ui/EditArticle.tsx:82-115 | invalid input sends nothing; otherwise the filtered payload goes out with the parsed page, success opens the server's slug, failure sets the 422 field errors |
| Text.TrimStart | src/pages/CreateArticle/ui/CreateArticle.tsx:74 | the leading blank part is dropped; the rest starts with a non-space |
| Text.TrimEnd | src/pages/CreateArticle/ui/CreateArticle.tsx:74 | the trailing blank part is dropped; the rest ends with a non-space |
| Text.Trim | src/pages/CreateArticle/ui/CreateArticle.tsx:74 | `trim()` is empty exactly for blank text, and otherwise starts and ends with a non-space |
| Text.AsciiLower | src/features/CreateArticle/model/createArticleApi.ts:44 | upper-case ASCII letters move to lower case, everything else is kept |
| Text.LowerAscii | src/features/CreateArticle/model/createArticleApi.ts:44 | `toLowerCase` character by character; the result has no upper-case letter |
| Text.DashRuns | src/features/CreateArticle/model/createArticleApi.ts:44 | `replace(/\s+/g, "-")`, empty exactly for empty text; its meaning is pinned down by `DashRunsCollapsesRun`, `DashRunsAfterSpaceless` and `DashRunsShape` below |
| Text.DashRunsShape | src/features/CreateArticle/model/createArticleApi.ts:44 | `replace(/\s+/g, "-")` leaves no white space, adds no upper-case letter and is never longer |
| Text.DashRunsFromAppend | src/features/CreateArticle/model/createArticleApi.ts:44 | the replacement of a concatenation is the replacement of each part, the second one knowing whether the first ended inside a white-space run |
| Text.DashRunsCollapsesRun | src/features/CreateArticle/model/createArticleApi.ts:44 | a whole white-space run (text before it not ending in white space, text after it not starting with it) becomes exactly one `-`, and the text around it is replaced on its own |
| Text.DashRunsAfterSpaceless | src/features/CreateArticle/model/createArticleApi.ts:44 | text without white space is copied as it is, and the replacement goes on after it |
| Text.DashRunsKeepsSpaceless | src/features/CreateArticle/model/createArticleApi.ts:44 | text without white space is left unchanged |
| Text.DashRunsIdempotent | src/features/CreateArticle/model/createArticleApi.ts:44 | replacing twice is the same as once |
| LikeHooks.HandleFavoriteToggle | src/features/Like/model/hooks.ts:19-42 | a guest goes to `/sign-in` with nothing sent; otherwise unfavorite when favorited and favorite when not, the page settles as that mutation leaves it, and the server article is returned or the error rethrown; no detail entry or stale tag changes |
| AuthSlice.WithImageDefault | src/features/Auth/model/authSlice.ts:19-22 | a missing image becomes `""`, every other field is kept |
| AuthSlice.InitialUser | src/features/Auth/model/authSlice.ts:12-23 | no stored user gives no session; a stored one gives it with the image default |
| AuthSlice.AuthState.constructor | src/features/Auth/model/authSlice.ts:12-23 | the store starts from storage, and a reload agrees with it |
| AuthSlice.AuthState.SetUser | src/features/Auth/model/authSlice.ts:33-44 | the session and the storage both take the user; a reload restores it |
| AuthSlice.AuthState.UpdateUser | src/features/Auth/model/authSlice.ts:30-32 | the session takes the user; storage is unchanged |
| AuthSlice.AuthState.Logout | src/features/Auth/model/authSlice.ts:45-48 | the session and the storage entry are both cleared; a reload agrees |
| PostsSlice.PostsState.constructor | src/entities/Post/model/postsSlice.ts:9-12 | page 1 and no articles |
| PostsSlice.PostsState.SetCurrentPage | src/entities/Post/model/postsSlice.ts:18-20 | the page is set, the articles are unchanged |
| PostsSlice.PostsState.UpdateArticle | src/entities/Post/model/postsSlice.ts:21-23 | the article is filed under its slug, overwriting; other keys and the page unchanged; every entry stays under its own slug |
| AuthApi.LoginUserCall | src/features/Auth/model/authApi.ts:14-18 | POST `/users/login` with `{user: credentials}` decodes back to login; no tags |
| AuthApi.RegisterUserCall | src/features/Auth/model/authApi.ts:24-28 | POST `/users` with `{user}` decodes back to register; no tags |
| AuthApi.UpdateUserCall | src/features/Auth/model/authApi.ts:34-38 | PUT `/user` with `{user}` decodes back to the update with its optional password and image; no tags |
| AuthApi.UpdateUserMutation | src/features/Auth/model/authApi.ts:39-47 | on success the session takes the server user without persisting and `Articles` goes stale; on failure nothing changes |
| BlogApi.PreparedHeaders | src/shared/api/blogApi.ts:10-17 | a non-empty token sets `authorization: Token <token>` and leaves every other header; no user or an empty token leaves the headers as they were |
| BlogApi.TokenRecoverable | src/shared/api/blogApi.ts:14 | the header value is the `Token ` scheme followed by exactly the token |
| BlogApi.PrepareHeadersIdempotent | src/shared/api/blogApi.ts:10-17 | preparing twice is preparing once |
| BlogApi.Headers.constructor | src/shared/api/blogApi.ts:10 | the headers start as given |
| BlogApi.Headers.Set | src/shared/api/blogApi.ts:14 | `set` stores the value under the lower-cased name |
| BlogApi.PrepareHeaders | src/shared/api/blogApi.ts:10-17 | the given object is updated in place to `PreparedHeaders` and returned |
| BlogApi.CreateArticleCall | src/shared/api/blogApi.ts:36-41 | POST `/articles` with the `{article}` argument decodes back to create; tags are `{Articles, LIST}` |
| BlogApi.UpdateArticleCall | src/shared/api/blogApi.ts:55-63 | PUT `/articles/{slug}` with `{article}` decodes back to update; tags are `{Articles, slug}` then `{Articles, LIST}` |
| BlogApi.UpdateUserCall | src/shared/api/blogApi.ts:89-94 | PUT `/user` with `{user}` decodes back to the update; tags are `User` |
| FormRules.FirstFailure | src/pages/SignUp/ui/SignUpForm.tsx:102-104 | no message exactly when every callback passes; otherwise the message of the first failing callback, all before it passing |
| FormRules.FieldError | src/pages/SignUp/ui/SignUpForm.tsx:92-105 | no error exactly when the value meets all the rules; `required` comes first, then too long, then too short |
| FormRules.CheckboxError | src/pages/SignUp/ui/SignUpForm.tsx:176-178 | a required checkbox fails exactly when unticked |
| FormRules.WithError | src/pages/SignUp/ui/SignUpForm.tsx:92-178 | the error map is empty exactly when it was empty and no error is added; the field is present exactly when it was or an error is added |
| Patterns.IsEmail | src/pages/SignUp/ui/SignUpForm.tsx:119-122 | an accepted email has no white space and contains `@` |
| Patterns.IsEmailMatchesPattern | src/pages/SignUp/ui/SignUpForm.tsx:119-122 | the recogniser accepts exactly the texts `part@part.part` of three non-empty parts free of white space and `@` (punctuation allowed) |
| Patterns.EmailHasShape | src/pages/SignUp/ui/SignUpForm.tsx:119-122 | every accepted text has that shape |
| Patterns.ShapeIsEmail | src/pages/SignUp/ui/SignUpForm.tsx:119-122 | every text of that shape is accepted |
| Patterns.HostOkMatchesPattern | src/pages/EditProfile/ui/EditProfile.tsx:176-179 | the character-level host check accepts exactly `([\w-]+\.)+[\w-]+` |
| Patterns.HostOkHasShape | src/pages/EditProfile/ui/EditProfile.tsx:176-179 | an accepted host is a word, a dot, and a word or a shorter host |
| Patterns.HostShapeIsOk | src/pages/EditProfile/ui/EditProfile.tsx:176-179 | every host of that grammar passes the check |
| Patterns.HostSplit | src/pages/EditProfile/ui/EditProfile.tsx:176-179 | an accepted host cut at its first dot is a word, then a word or an accepted host |
| Patterns.HostJoin | src/pages/EditProfile/ui/EditProfile.tsx:176-179 | a word, a dot and a word or an accepted host make an accepted host |
| Patterns.SchemeLength | src/pages/EditProfile/ui/EditProfile.tsx:176-179 | a leading scheme is 0, 7 or 8 characters long |
| Patterns.SchemeLengthIsScheme | src/pages/EditProfile/ui/EditProfile.tsx:176-179 | the scheme the recogniser strips is one the pattern allows |
| Patterns.ShapeSchemeLength | src/pages/EditProfile/ui/EditProfile.tsx:176-179 | in a text of the pattern's shape, the scheme ends where the recogniser says |
| Patterns.HostEnd | src/pages/EditProfile/ui/EditProfile.tsx:176-179 | the host ends at the first `/` after it or at the end |
| Patterns.IsAvatarUrl | src/pages/EditProfile/ui/EditProfile.tsx:176-179 | an accepted avatar URL contains a dot and only characters the pattern allows (path characters and the scheme's `:`) |
| Patterns.IsAvatarUrlMatchesPattern | src/pages/EditProfile/ui/EditProfile.tsx:176-179 | the URL recogniser accepts exactly the texts of `(https?://)?host(/path)?`, the scheme in any letter case |
| Patterns.AvatarUrlHasShape | src/pages/EditProfile/ui/EditProfile.tsx:176-179 | every accepted URL has the pattern's shape |
| Patterns.ShapeIsAvatarUrl | src/pages/EditProfile/ui/EditProfile.tsx:176-179 | every text of the pattern's shape is accepted |
| ServerErrors.FieldErrors | src/pages/SignUp/ui/SignUpForm.tsx:59-79 | only a 422 with an `errors` object sets errors: exactly one per listed key with a non-empty message, worded as prefix, message, suffix |
| ServerErrors.Mapped | src/pages/SignUp/ui/SignUpForm.tsx:60-78 | each listed key with a non-empty server message gets its worded error and no other key appears |
| AccountFields.UsernameError | src/pages/SignUp/ui/SignUpForm.tsx:92-105 | no error exactly for 3 to 20 characters without white space; the required, too short, too long and spaces messages in that order |
| AccountFields.EmailError | src/pages/SignUp/ui/SignUpForm.tsx:117-126 | no error exactly for texts of the email pattern; required when empty, otherwise invalid; the spaces message never shows |
| AccountFields.PasswordError | src/pages/SignUp/ui/SignUpForm.tsx:138-152 | no error exactly for 6 to 40 characters without white space, with the matching message otherwise |
| AccountFields.RepeatPasswordError | src/pages/SignUp/ui/SignUpForm.tsx:163-166 | no error exactly when the repeat is non-empty and equals the password |
| AccountFields.AgreeError | src/pages/SignUp/ui/SignUpForm.tsx:176-178 | no error exactly when the box is ticked |
| AccountFields.SignInPasswordError | src/pages/SignIn/ui/SignInForm.tsx:74-76 | the sign-in password only needs to be non-empty |
| AccountFields.NewPasswordError | src/pages/EditProfile/ui/EditProfile.tsx:145-160 | no error exactly when the new password is empty or 6 to 40 characters without white space |
| AccountFields.AvatarError | src/pages/EditProfile/ui/EditProfile.tsx:175-179 | no error exactly when the image is empty or of the URL pattern |
| SignUpForm.Validate | src/pages/SignUp/ui/SignUpForm.tsx:92-178 | the form is valid exactly when all five field rules hold; the username, repeat-password and consent keys are present exactly when those rules fail |
| SignUpForm.HandleSubmit | src/pages/SignUp/ui/SignUpForm.tsx:48-81 | invalid input sends nothing; success signs the server user in and stores it before opening the list; failure leaves the session and sets the 422 field errors |
| SignInForm.Validate | src/pages/SignIn/ui/SignInForm.tsx:53-76 | the form is valid exactly when the email matches and the password is non-empty |
| SignInForm.HandleSubmit | src/pages/SignIn/ui/SignInForm.tsx:30-41 | success signs the server user in and stores it, then opens the list; failure changes nothing and sets no field error |
| EditProfile.Defaults | src/pages/EditProfile/ui/EditProfile.tsx:38-43 | the form opens with the session's fields or `""`, and an empty password |
| EditProfile.Validate | src/pages/EditProfile/ui/EditProfile.tsx:90-180 | the form is valid exactly when username and email pass and the password and image are empty or valid |
| EditProfile.OrUndefined | src/pages/EditProfile/ui/EditProfile.tsx:51-52 | an empty field is left out and a non-empty one is sent as is |
| EditProfile.UpdateCall | src/pages/EditProfile/ui/EditProfile.tsx:48-53 | the request decodes back to the update with empty password and image left out |
| EditProfile.SavedImage | src/pages/EditProfile/ui/EditProfile.tsx:57 | the server's non-empty image wins, otherwise the entered one |
| EditProfile.SavedUser | src/pages/EditProfile/ui/EditProfile.tsx:55-59 | the stored user is the server's user with that image |
| EditProfile.ResubmitKeepsImage | src/pages/EditProfile/ui/EditProfile.tsx:38-60 | saving the form as it opened, with no image from the server, keeps the session's image and sends no password |
| EditProfile.HandleSubmit | src/pages/EditProfile/ui/EditProfile.tsx:46-80 | success puts the server user in the session, stores it with the image fallback, invalidates `Articles` and opens the list; failure changes nothing but the 422 field errors |
| ArticleForm.MinLengthError | src/pages/CreateArticle/ui/CreateArticle.tsx:120-126 | no error exactly for a non-empty value of at least the minimum length; required or too short otherwise |
| ArticleForm.Validate | src/pages/CreateArticle/ui/CreateArticle.tsx:117-172 | the form is valid exactly when title, description and body have at least 3, 10 and 5 characters |
| ArticleForm.AddTag | src/pages/CreateArticle/ui/CreateArticle.tsx:50-52 | one empty tag is appended and the existing tags are unchanged |
| ArticleForm.RemoveTag | src/pages/CreateArticle/ui/CreateArticle.tsx:54-59 | exactly the tag at the index is removed and the rest keep their order; an index outside the list removes nothing |
| ArticleForm.UpdateTag | src/pages/CreateArticle/ui/CreateArticle.tsx:61-65 | only the tag at the index changes and the length is kept |
| ArticleForm.RemoveAddedTag | src/pages/CreateArticle/ui/CreateArticle.tsx:50-59 | removing the tag just added gives back the list |
| ArticleForm.Filled | src/pages/CreateArticle/ui/CreateArticle.tsx:74 | the filter's test `tag.trim() !== ""`, as "not blank"; `FilledIsTrimmedNonEmpty` states the two agree |
| ArticleForm.FilledIsTrimmedNonEmpty | src/pages/CreateArticle/ui/CreateArticle.tsx:74 | a tag is kept exactly when its trimmed text is not empty |
| ArticleForm.SubmittedTags | src/pages/CreateArticle/ui/CreateArticle.tsx:74 | the submitted tags are all non-blank and drawn from the form's tags |
| ArticleForm.SubmittedTagsAppend | src/pages/CreateArticle/ui/CreateArticle.tsx:74 | filtering a concatenation filters each part, so the order is kept |
| ArticleForm.SubmittedTagsKeepsFilled | src/pages/CreateArticle/ui/CreateArticle.tsx:74 | tags that are all non-blank are sent unchanged |
| ArticleForm.ClearedTagIsDropped | src/pages/CreateArticle/ui/CreateArticle.tsx:61-74 | a tag cleared to `""` is sent as if it had been removed |
| ArticleForm.EmptyAddedTagIsDropped | src/pages/CreateArticle/ui/CreateArticle.tsx:50-74 | a tag added and left empty is not sent |
| ArticleForm.Payload | src/pages/CreateArticle/ui/CreateArticle.tsx:69-75 | the article sent carries the three texts and the filtered tags |
| ArticleForm.ArticleServerErrors | src/pages/CreateArticle/ui/CreateArticle.tsx:80-100 | each of title, description and body has a message exactly when a 422 reply reports that key with a non-empty text, and it reads `Title `, `Description ` or `Body ` followed by the server's text; no other field gets one |
| CreateArticlePage.HandleSubmit | src/pages/CreateArticle/ui/CreateArticle.tsx:67-107 | a guest is redirected to `/sign-in` and nothing changes; an invalid form sends nothing; otherwise the filtered article is created, success opens it under the server's slug, failure sets the 422 field errors |

## Left out

- React rendering, JSX, styling, routing and the loading and not-found branches of the pages are
  not modelled. Navigation is recorded as the path a handler returns.
- HTTP transport and `fetchBaseQuery` are not modelled. Each remote call's answer is an input. The
  base URL appears only as a constant.
- RTK Query internals are not modelled: middleware, refetching, the matching of tags to entries,
  and Immer's patch mechanics. Invalidation adds the named tags to a stale set. `undo` restores
  the captured snapshot of the one patched entry, which assumes one mutation in flight per page.
- Concurrent and interleaved mutations are not modelled. Each handler runs to completion.
- The `onQueryStarted` continuation of `updateUser` is taken to run before the profile page's own
  continuation after the same response. The session therefore ends with the page's `setUser`.
- `JSON.stringify`/`JSON.parse` of the stored user is taken to be the identity.
- `Text.LowerAscii`: `toLowerCase` is modelled on ASCII letters only; other letters are kept.
- String lengths count characters, while JavaScript counts UTF-16 code units. The two differ only
  outside the Basic Multilingual Plane.
- `isFavoriteLoading` (src/features/Like/model/hooks.ts:44) is the OR of the two mutations'
  pending flags. Pending state belongs to RTK Query and is not modelled.
- `ArticleForm.UpdateTag` requires an index inside the list. The editor only calls it from a
  rendered tag input. In JavaScript, an index past the end would grow the array with holes.
- `AccountFields.NewPasswordError`: the profile password callback also lets `undefined` through.
  A text field is never `undefined`, so the callback is modelled as the no-white-space check.
- `Decimal.NatToString`, `Decimal.IntToString` and `Decimal.JsParseInt` work on unbounded
  integers. JavaScript writes numbers of 1e21 and above in exponent form, and `parseInt` loses
  precision above 2^53; neither is modelled, which page numbers and offsets never reach.
- `EditArticlePage.CurrentPage`: `parseInt`'s `NaN` is `None`. The page then passes it on
  unchanged, which the update request ignores.
- src/entities/User/model/userApi.ts, src/features/Auth/model/hooks.ts, the store assembly and
  the `index.ts` re-exports are wiring with nothing to state, and are left out.
