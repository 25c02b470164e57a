# Poetry site: list, detail, user centre and session binder

A model of the client-side core of a React site for browsing classical Chinese poetry.

- **List page** (`PoetryList`). It keeps a filter state {search, dynasty, author, page}.
  - On mount the state is read from the route and the address bar.
  - The search box, the two selects, the pagination and the reset button change it.
  - After every change the state is written back to the address bar in canonical form, and it becomes the query sent to the poetry data store: `q`, `dynasty`, `author`, `_page` and `_limit=12`.
- **Detail page** (`PoetryDetail`).
  - A favourite toggle sends the user's whole new favourites list. Only after that write succeeds does it flip the flag and update the user record.
  - A like counter.
  - A comment form that refuses blank text and puts a new comment first.
- **User centre** (`UserCenter`).
  - Loads the signed-in user's profile row, then the poems whose ids are in that row's favourites.
  - Removes a favourite from the profile and from the shown poems, only after the profile update succeeds.
  - Shows placeholders while the profile is missing.
- **Session binder** (`AuthContext`).
  - Publishes the signed-in user merged with their profile row, falling back to the email for the name and to a per-user placeholder avatar.
  - Publishes a loading flag.
  - Reacts to the auth provider's state listener, to the session found at start-up, and to the sign-in and sign-out calls.

Shared pieces:
- `Common` holds the absent value (`Option`), the outcome of a remote call (`Outcome`) and the poem row.
- `JsBuiltins` holds the ECMAScript behaviour the pages rely on: `String.prototype.trim`, `parseInt` without a radix, `String(n)`, `a || b` on strings, and `filter` dropping one value.

Components are classes whose fields are their state cells. Each remote call is a parameter of the method that awaits it: the data store, the auth provider and the profile table. A method returns the request it issues, or `None` when it issues none, so "nothing was sent" can be observed.

## Model

| member | source | states |
|---|---|---|
| JsBuiltins.TrimStart | src/pages/PoetryDetail.jsx:89 | the result is a suffix of the input that does not start with white space, and it is empty exactly when the input is blank |
| JsBuiltins.TrimEnd | src/pages/PoetryDetail.jsx:89 | the result is a prefix of the input that does not end with white space, and it is empty exactly when the input is blank |
| JsBuiltins.Trim | src/pages/PoetryDetail.jsx:89 | `s.trim()` is empty exactly when `s` is blank; otherwise it neither starts nor ends with white space |
| JsBuiltins.TrimStartDropsOnlySpace | src/pages/PoetryDetail.jsx:89 | the prefix that the start trim removes is all white space |
| JsBuiltins.TrimEndDropsOnlySpace | src/pages/PoetryDetail.jsx:89 | the suffix that the end trim removes is all white space |
| JsBuiltins.TrimIsInfix | src/pages/PoetryDetail.jsx:89 | `s.trim()` is the part of `s` between a blank head and a blank tail: it sits in `s` where the start trim stops, and only white space precedes and follows it |
| JsBuiltins.ParseInt | src/pages/PoetryList.jsx:19 | `parseInt` of a blank string is NaN, and a negative result comes only from a leading minus sign after the white space |
| JsBuiltins.IntToString | src/pages/PoetryList.jsx:30 | `String(n)` is non-empty, starts with a minus sign exactly when n is negative, and is otherwise made of decimal digits |
| JsBuiltins.OrElse | src/pages/UserCenter.jsx:111-117 | `a \|\| b` on strings is `a` when `a` is present and non-empty, and `b` otherwise; it is empty only when both sides are |
| JsBuiltins.DigitPrefix | src/pages/PoetryList.jsx:19 | `parseInt` reads the longest run of digits in the radix |
| JsBuiltins.NatToString | src/pages/PoetryList.jsx:30 | the decimal form of a number is a non-empty run of digits |
| JsBuiltins.DigitsValueOfNatToString | src/pages/PoetryList.jsx:30 | reading the decimal digits of n back gives n |
| JsBuiltins.ParseMagnitudeOfDigits | src/pages/PoetryList.jsx:19 | a plain run of decimal digits is read as its own value |
| JsBuiltins.ParseIntOfDigits | src/pages/PoetryList.jsx:19 | `parseInt` of a run of decimal digits is its value |
| JsBuiltins.ParseIntOfNegative | src/pages/PoetryList.jsx:19 | `parseInt` of a minus sign followed by a magnitude is the negated magnitude |
| JsBuiltins.ParseIntOfIntToString | src/pages/PoetryList.jsx:30 | `parseInt(String(n)) === n` for every integer, so a page written to the address bar reads back unchanged |
| JsBuiltins.IntToStringInjective | src/pages/PoetryList.jsx:30 | different page numbers never print alike |
| JsBuiltins.ParseIntOfBlank | src/pages/PoetryList.jsx:19 | a blank or empty page parameter is NaN |
| JsBuiltins.Without | src/pages/UserCenter.jsx:76 | `filter(id => id !== x)` drops every occurrence of x and keeps every other value with its count; a list without x is returned as is |
| JsBuiltins.WithoutConcat | src/pages/PoetryDetail.jsx:114 | the filter distributes over concatenation, so the survivors keep their order |
| JsBuiltins.WithoutKeepsNoDuplicates | src/pages/PoetryDetail.jsx:114 | removing an id keeps a duplicate-free favourites list duplicate-free |
| JsBuiltins.AppendFreshKeepsNoDuplicates | src/pages/PoetryDetail.jsx:116 | appending an id that is not there keeps the list duplicate-free |
| PoetryList.DropName | src/pages/PoetryList.jsx:26-31 | after dropping a name no pair carries it, and every other name reads as before |
| PoetryList.SetParam | src/pages/PoetryList.jsx:27-30 | `URLSearchParams.set` makes the name read as the value and leaves every other name as it was |
| PoetryList.SetParamOnAbsentName | src/pages/PoetryList.jsx:27-30 | on a name not yet present, `set` appends the pair |
| PoetryList.GetOfConcat | src/pages/PoetryList.jsx:26-31 | `get` finds a name in the first of two concatenated lists before the second |
| PoetryList.GetOfFour | src/pages/PoetryList.jsx:26-31 | `get` over four concatenated groups finds the first group holding the name |
| PoetryList.UrlParams | src/pages/PoetryList.jsx:26-31 | the address bar carries only the names `search`, `dynasty`, `author` and `page`, each at most once |
| PoetryList.RemoteQuery | src/pages/PoetryList.jsx:38-43 | the query ends with `_page` for the page and `_limit` for the page size, and before them holds only `q`, `dynasty` and `author` |
| PoetryList.DeriveUrlParams | src/pages/PoetryList.jsx:26-31 | the address bar that the conditional `set`s build is the canonical query string of the filters |
| PoetryList.DeriveRemoteQuery | src/pages/PoetryList.jsx:38-43 | the query that the conditional `append`s build is the remote query of the filters |
| PoetryList.UrlParamsOmitDefaults | src/pages/PoetryList.jsx:26-31 | the address bar has `search`, `dynasty`, `author` and `page` exactly when they differ from their defaults ("", the all label, page 1), each with its value, and no other name |
| PoetryList.RemoteQueryFields | src/pages/PoetryList.jsx:38-43 | the query always has `_page` and `_limit=12`; it has the search text only as `q`; it names a dynasty or author only when that select narrows the list; it has no other name |
| PoetryList.RemoteQueryExample | src/pages/PoetryList.jsx:38-43 | search "月" on the Tang dynasty asks for `q=月&dynasty=唐代&_page=1&_limit=12` |
| PoetryList.InitialPageAsWritten | src/pages/PoetryList.jsx:19 | `parseInt(page) \|\| 1` is never 0: a parsed non-zero number is the page, negative ones included; NaN and 0 give 1 |
| PoetryList.InitialPage | src/pages/PoetryList.jsx:19 | the first page is always at least 1, and it equals the code's reading whenever that is at least 1 |
| PoetryList.NegativePageSlipsThrough | src/pages/PoetryList.jsx:19 | every negative page in the address bar (`?page=-2`, say) is kept as that page as written, and read as page 1 when corrected |
| PoetryList.MissingPageIsOne | src/pages/PoetryList.jsx:19 | a missing, non-numeric or zero page starts on page 1 |
| PoetryList.InitialFilters | src/pages/PoetryList.jsx:15-20 | search and author come from the address bar or are empty; the route's dynasty takes precedence over the address bar's; the page is the corrected reading of the page parameter, so at least 1 |
| PoetryList.UrlRoundTrip | src/pages/PoetryList.jsx:15-31 | remounting on the canonical address bar of a state gives that state back |
| PoetryList.SearchFor | src/pages/PoetryList.jsx:57 | the search box sets the text and returns to page 1, keeping dynasty and author |
| PoetryList.ChangeFilter | src/pages/PoetryList.jsx:61-62 | a select change is refused exactly for the dynasty select while the route fixes the dynasty; otherwise only its own field changes and the page returns to 1 |
| PoetryList.ChangePage | src/pages/PoetryList.jsx:66 | the pagination changes the page and keeps search, dynasty and author |
| PoetryList.ResetFilters | src/pages/PoetryList.jsx:128 | the reset state has an empty address bar: no search, no narrowing dynasty or author, page 1 |
| PoetryList.OptionValue | src/pages/PoetryList.jsx:101 | no option stands for the "all" label itself; every other option stands for itself; an option's value narrows the list exactly when the option does |
| PoetryList.SearchResetsPage | src/pages/PoetryList.jsx:56-58 | a search sets the text and returns to page 1; dynasty and author stay, in the state and in the address bar |
| PoetryList.FilterChangeSetsOneField | src/pages/PoetryList.jsx:60-63 | a select change sets only its own field and returns to page 1; a dynasty fixed by the route blocks the dynasty select completely |
| PoetryList.AllOptionClearsFilter | src/pages/PoetryList.jsx:101 | picking the "all" option removes that filter from the address bar and from the query |
| PoetryList.PageChangeKeepsFilters | src/pages/PoetryList.jsx:65-67 | turning the page keeps search, dynasty and author, in the address bar and in the query, and asks for the new page |
| PoetryList.ResetClearsEverything | src/pages/PoetryList.jsx:127-130 | reset empties the address bar and leaves only `_page=1&_limit=12` in the query |
| PoetryList.ResetDropsRouteDynasty | src/pages/PoetryList.jsx:128 | reset also clears a dynasty that came from the route |
| PoetryList.PoetryListView.constructor | src/pages/PoetryList.jsx:11-20 | mounting reads the state from the route and the address bar; the page is positive |
| PoetryList.PoetryListView.SyncAndFetch | src/pages/PoetryList.jsx:25-54 | the effect writes the canonical address bar, sends the remote query, shows the fetched rows (none on an error) and ends loading |
| PoetryList.PoetryListView.Search | src/pages/PoetryList.jsx:56-58 | the search handler and the effect after it |
| PoetryList.PoetryListView.SelectFilter | src/pages/PoetryList.jsx:60-63 | a blocked dynasty change alters nothing and sends nothing; any other change is applied and followed by the effect |
| PoetryList.PoetryListView.TurnPage | src/pages/PoetryList.jsx:65-67 | the pagination handler and the effect after it |
| PoetryList.PoetryListView.Reset | src/pages/PoetryList.jsx:127-130 | reset clears the filters and the address bar, and the effect follows |
| PoetryDetail.IsFavoriteOf | src/pages/PoetryDetail.jsx:74 | a poem is a favourite exactly when the user has a favourites list and the poem occurs on it |
| PoetryDetail.ToggledFavorites | src/pages/PoetryDetail.jsx:113-117 | whatever the flag, the written list holds the poem exactly when the flag said it did not, and every other id is on it exactly when it was before |
| PoetryDetail.ToggleFlipsMembership | src/pages/PoetryDetail.jsx:112-117 | with a correct flag the toggled list has the poem exactly when the old one did not; every other id keeps its count; adding puts the poem last |
| PoetryDetail.ToggleKeepsNoDuplicates | src/pages/PoetryDetail.jsx:112-117 | toggling keeps a duplicate-free favourites list duplicate-free |
| PoetryDetail.ToggleTwiceRestores | src/pages/PoetryDetail.jsx:112-117 | adding a poem and then removing it restores the list |
| PoetryDetail.Liked | src/pages/PoetryDetail.jsx:84-86 | a loaded poem gains exactly one like and nothing else about it changes; no poem stays no poem |
| PoetryDetail.NewComment | src/pages/PoetryDetail.jsx:90-96 | a new comment's id is the count plus one; it holds the text and time given, signed by the user or else as the guest |
| PoetryDetail.NewCommentKeepsNumbering | src/pages/PoetryDetail.jsx:90-97 | a submitted comment's id is new, and comments stay numbered 1..n without repeats |
| PoetryDetail.PoetryDetailView.constructor | src/pages/PoetryDetail.jsx:12-19 | the initial state cells; the favourite flag agrees with the (absent) user |
| PoetryDetail.PoetryDetailView.LoadPoetry | src/pages/PoetryDetail.jsx:27-42 | the fetched poem, or none when the fetch fails; loading ends |
| PoetryDetail.PoetryDetailView.ShowComments | src/pages/PoetryDetail.jsx:44-62 | the initial comments are shown |
| PoetryDetail.PoetryDetailView.LoadUser | src/pages/PoetryDetail.jsx:64-82 | a loaded user sets the flag to whether their favourites hold the poem; a failed load changes nothing |
| PoetryDetail.PoetryDetailView.Like | src/pages/PoetryDetail.jsx:84-86 | the poem becomes its liked version |
| PoetryDetail.PoetryDetailView.TypeComment | src/pages/PoetryDetail.jsx:220 | the comment box holds what was typed |
| PoetryDetail.PoetryDetailView.SubmitComment | src/pages/PoetryDetail.jsx:88-103 | blank text is refused and changes nothing; otherwise the new comment goes first and the box is cleared |
| PoetryDetail.PoetryDetailView.ToggleFavorite | src/pages/PoetryDetail.jsx:105-138 | no user or no favourites list: nothing is sent and nothing changes; otherwise the toggled list is sent; only a successful write flips the flag and stores the list; the flag stays in agreement with the user |
| PoetryDetail.ToggleTwiceOnFreshPoem | src/pages/PoetryDetail.jsx:105-138 | two successful toggles on a poem that was not a favourite restore the user record and the flag |
| UserCenter.Info | src/pages/UserCenter.jsx:111-117 | the header shows the profile's name and avatar when present, and "加载中..." and the seed-1 avatar otherwise; neither is ever blank |
| UserCenter.PoemsWithout | src/pages/UserCenter.jsx:88 | the poems with that id go and every other poem stays; nothing changes when no poem has the id |
| UserCenter.PoemsWithoutConcat | src/pages/UserCenter.jsx:88 | the filter distributes over concatenation, so the remaining poems keep their order |
| UserCenter.RemovalKeepsListsAligned | src/pages/UserCenter.jsx:76-88 | removing a poem from both lists keeps every shown poem among the favourites, and the poem is in neither list afterwards |
| UserCenter.UserCenterView.constructor | src/pages/UserCenter.jsx:13-16 | the initial state cells |
| UserCenter.UserCenterView.Refresh | src/pages/UserCenter.jsx:19-62 | signed out: only loading ends; profile error: nothing else changes; profile loaded: it is stored, then the favourites are queried when there are any (a failed query keeps the old poems) or the poems are emptied |
| UserCenter.UserCenterView.RemoveFavorite | src/pages/UserCenter.jsx:64-96 | no profile, no favourites list or nobody signed in: nothing is sent; otherwise the list without the poem is sent; only a successful update drops the poem from the profile and from the shown poems |
| AuthContext.PlaceholderAvatarInjective | src/AuthContext.jsx:28 | two users never share a placeholder avatar |
| AuthContext.MergeUser | src/AuthContext.jsx:25-29 | id and email are kept; the name is the profile's or else the email; the avatar is the profile's or else the placeholder, so it is never blank |
| AuthContext.Resolve | src/AuthContext.jsx:13-33 | a user is published exactly when there is a session and its profile lookup succeeded, and it is then the session user merged with the looked-up profile, keeping its id and email |
| AuthContext.PlaceholderAvatarsIdentifyUsers | src/AuthContext.jsx:28 | users without a profile avatar are told apart by their avatars |
| AuthContext.MissingProfileFallsBack | src/AuthContext.jsx:25-29 | a lookup that returns a null profile without an error falls back to the email for the name and to the placeholder avatar |
| AuthContext.AuthStore.constructor | src/AuthContext.jsx:7-8 | nobody is signed in and loading is on |
| AuthContext.AuthStore.OnAuthStateChange | src/AuthContext.jsx:11-36 | the listener looks the profile up by the session's id, publishes the resolved user (nobody without a session or on error) and ends loading |
| AuthContext.AuthStore.InitialSessionResolved | src/AuthContext.jsx:39-61 | the start-up session ends loading at once and starts a profile lookup only for a session |
| AuthContext.AuthStore.InitialProfileResolved | src/AuthContext.jsx:47-57 | the start-up lookup publishes the resolved user, or nobody on error, without touching loading |
| AuthContext.AuthStore.BeginAuthCall | src/AuthContext.jsx:69 | sign-in and sign-out set loading before awaiting the provider |
| AuthContext.AuthStore.EndLogin | src/AuthContext.jsx:70-73 | sign-in ends loading and returns or rethrows the provider's result |
| AuthContext.AuthStore.EndLogout | src/AuthContext.jsx:78-80 | sign-out ends loading and rethrows the provider's error, if any |
| AuthContext.SignInThenListener | src/AuthContext.jsx:68-74 | a sign-in does not publish a user itself; the listener that follows does, with the signed-in id |
| AuthContext.StartUpLookupOutlivesSignOut | src/AuthContext.jsx:39-58 | a start-up lookup that resolves after a sign-out publishes the signed-out user again |

## Left out

- Rendering, messages and console output are not modelled. Only the state cells that rendering reads are.
- Network, the data store and the auth provider are not modelled. Their results are parameters of the methods that await them.
- Interleaving of awaits is modelled only where a method is split at an await: `BeginAuthCall` and `EndLogin`/`EndLogout`, and the two start-up callbacks. Every other await is treated as completing before the next event.
- A fetch that ends with a non-2xx status on the list page is not modelled. The code parses such a body as the list; the model treats it as an error and shows no rows.
- Unmounting and the listener unsubscribe are not modelled.
- A change of the route's poem id or dynasty while a page is mounted is not modelled. Both are fixed per component instance.
- The detail page's comments are the mocked pair it sets on arrival. `ShowComments` takes them as a parameter.
- The comment timestamp is a parameter. `new Date().toLocaleString()` is a clock call.
- The detail page's poem id is an integer. A non-numeric route id makes `parseInt(id)` NaN, and that case is not modelled.
- The detail page loads the user with a fixed id. The model takes whatever user record the load returns.
- The user centre's confirmation dialog is not modelled. `RemoveFavorite` is the confirmed path; cancelling does nothing.
- `parseInt` is modelled on integers only. Numeric strings with exponents, fractions and values past 2^53 are not covered, nor is `String(n)` on non-integral numbers.
- `URLSearchParams` is modelled as an ordered list of name/value pairs without percent-encoding. `setSearchParams({})` is the empty list.
- PoetryList.InitialPage: follows the corrected page reading, not the code as written. See the findings below.
- PoetryList.PoetryListView.TurnPage: requires a page of at least 1. The pagination widget only reports such pages, and the handler does not check them itself.
- The session user is modelled by its id and email only. `...session.user` copies every field of the provider's user object into the published user, and the other fields are not modelled.
- A missing profile row is the lookup's error case. `.single()` reports zero rows as an error, so the user is then published as nobody (src/AuthContext.jsx:19, 21-23, 46, 48-50). The `Ok(None)` lookup stands for a null profile returned without an error.
- No route in src/router/index.jsx has a `:dynasty` segment, so the route's dynasty is always absent in the shipped application. The model keeps it as a parameter because the list page reads it.

## Findings

| source | as written | input that shows it | evidently intended | confidence | as-written member | corrected member |
|---|---|---|---|---|---|---|
| src/pages/PoetryList.jsx:19 | `parseInt(searchParams.get('page')) \|\| 1` replaces only NaN and 0 with 1, so a negative page is kept | address bar `?page=-2` gives page -2, and `_page=-2` is sent to the data store | the first page is always at least 1 | medium, not executed | PoetryList.InitialPageAsWritten, PoetryList.NegativePageSlipsThrough | PoetryList.InitialPage |
