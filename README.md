# Digitalflix front end — a Dafny model

Digitalflix is a movie-streaming front end written with React. This project
models the logic of its seven screens and shared pieces:

- the sign-in page (`Login`);
- the catalogue home page (`Dashboard`), with its fixed movie table, featured
  list and title-or-genre search;
- the movie page (`MovieDetails`), with its lookup of the `id` query
  parameter, the "watch now" navigation and the trailer dialog;
- the trailer player (`VideoPlayer`) and the full-screen watch page
  (`WatchNow`), both of which turn a YouTube link into an embed URL with the
  same regular expression, and the watch page's clock and controls;
- the account page (`Profile`), with its edit mode, avatar initials and
  favourites counter;
- the administration page (`Admin`), with the movie list loaded from the
  catalogue API, its search box and the create/edit dialog.

Pure logic (the URL normaliser, the clock text, the filters, the lookup,
form conversions) is written as functions, with lemmas for what callers rely
on. The `useState` hooks of `Login`, `MovieDetails`, `WatchNow`, `Profile` and
`Admin` become the fields of a class, and their event handlers that change
that state become methods with a `modifies` clause whose `ensures` give the
whole new state. The exceptions:

- `Dashboard`'s only state, `searchTerm`, is the `term` parameter of the
  function `Dashboard.View`; typing in its search box is not a method, each
  term simply gives its own view;
- `handleWatchNow` changes no state and only navigates, so it is the function
  `MovieDetails.WatchTarget` giving the target;
- `handleSubmit` is split at its `await`: the request half is the function
  `Admin.AdminScreen.SubmitRequest`, which reads the state, and the answer
  half is the method `Admin.AdminScreen.SubmitAnswered`.

Everything outside the page becomes a parameter:

- API responses are `ApiResult` values;
- `toLowerCase`, `encodeURIComponent` and the current year are parameters;
- timers are explicit event methods (`Tick`, `HideControls`,
  `LoginForm.Complete`).

Modules:

| file | module | what it holds |
|---|---|---|
| Prelude.dfy | Prelude | `Option`, `Array.prototype.filter`, `String.prototype.includes`, `split`, `padStart` |
| Decimal.dfy | Decimal | `Number.prototype.toString` on naturals, with the parser that reads it back |
| Catalog.dfy | Catalog | the `Movie` record of the API, the search and featured filters |
| YouTube.dfy | YouTube | `getYouTubeEmbedUrl`: the regular expression as a predicate and as a search |
| VideoPlayer.dfy | VideoPlayer | the trailer dialog's iframe source |
| WatchNow.dfy | WatchNow | the watch page: embed URL, backdrop, `formatTime`, clock and controls |
| Dashboard.dfy | Dashboard | the home page: table, featured list, search results, page layout |
| Admin.dfy | Admin | the administration page: form, edits, API requests, listing |
| Profile.dfy | Profile | the account page: initials, edits, favourites |
| MovieDetails.dfy | MovieDetails | the movie page: lookup, navigation, trailer dialog |
| Login.dfy | Login | the sign-in form and its delayed check |

## Model

| member | source | states |
|---|---|---|
| Catalog.Matches | src/pages/Dashboard.tsx:70-73 | every movie matches an empty term and a term equal to its title or genre (after lower-casing); a match needs a term no longer than the title or the genre |
| Catalog.Search | src/pages/Dashboard.tsx:70-73 | the search keeps exactly the movies whose lower-cased title or genre contains the lower-cased term: an order-preserving subsequence, every element matching, each matching movie as often as in the input and no other |
| Catalog.SearchEmptyTerm | src/pages/Admin.tsx:147-150 | an empty term keeps the whole list (every string contains ""), given that lower-casing keeps "" empty |
| Catalog.SearchCaseInsensitive | src/pages/Admin.tsx:147-150 | a term and its lower-cased form select the same movies |
| Catalog.SearchEmptyResult | src/pages/Dashboard.tsx:146-150 | the search finds nothing exactly when no movie of the list matches |
| Catalog.Featured | src/pages/Dashboard.tsx:69 | the featured filter keeps exactly the featured movies, in order, with their multiplicities |
| Prelude.Filter | src/pages/Dashboard.tsx:69 | `filter` returns an order-preserving subsequence holding every element that satisfies the predicate, as often as in the input, and nothing else |
| Prelude.Split | src/pages/Profile.tsx:105 | `split` gives at least one piece, no piece holds the separator, and joining the pieces with the separator gives the input back |
| Prelude.PadStart | src/pages/WatchNow.tsx:60 | `padStart` keeps the text at the end and fills with the fill character up to the width |
| Decimal.NatToString | src/pages/WatchNow.tsx:55-62 | `toString` of a natural is all digits with no leading zero (except "0"), one digit below 10 and two below 100 |
| Decimal.ParseNatToString | src/pages/WatchNow.tsx:55-62 | reading the decimal text back gives the number |
| YouTube.FindId | src/components/VideoPlayer.tsx:13-14 | `url.match(youtubeRegex)?.[1]`: an 11-character id that a recognised prefix ends at, taken from the leftmost start that matches, or nothing exactly when no such occurrence exists |
| YouTube.FindFrom | src/components/VideoPlayer.tsx:13-14 | an answer is a capture of the pattern; none only when no start from the given one on matches (that an answer comes from the first matching start is YouTube.FindFromLeftmost) |
| YouTube.FindFromLeftmost | src/components/VideoPlayer.tsx:13-14 | an answer is the match at a start before which (from the given one on) no start matches: the regular expression's leftmost match |
| YouTube.MatchAt | src/components/VideoPlayer.tsx:13 | an answer is a position at which a recognised prefix that starts there ends and an id follows; none means no prefix starting there is followed by an id |
| YouTube.LastChannelEnd | src/components/VideoPlayer.tsx:13 | greedy `.+\/` before the id: the last end that leads to an id, and none beyond it |
| YouTube.LastQueryEnd | src/components/VideoPlayer.tsx:13 | greedy `.*[?&]v=`: the last end that leads to an id, and none beyond it |
| YouTube.EmbedUrl | src/components/VideoPlayer.tsx:12-21 | `getYouTubeEmbedUrl`: the embed base, a captured id and the query string when the pattern matches, the input itself otherwise |
| YouTube.VariantsAgree | src/pages/WatchNow.tsx:16-25 | the two copies of the normaliser agree on everything but the appended query string |
| YouTube.EmbedUrlRenormalizes | src/pages/WatchNow.tsx:16-25 | an embed URL the normaliser produced (with an inert query string) normalises to the embed URL of the same id |
| YouTube.ShortLinkNormalizes | src/components/VideoPlayer.tsx:12-21 | a `https://youtu.be/<id>` link normalises to the embed URL of that id |
| YouTube.WatchLinkNormalizes | src/components/VideoPlayer.tsx:12-21 | a `https://www.youtube.com/watch?v=<id>` link normalises to the embed URL of that id |
| YouTube.EmbedCaptureUnique | src/components/VideoPlayer.tsx:13 | in an embed URL the only place a recognised prefix ends in front of an id is after `embed/` |
| YouTube.WatchCaptureUnique | src/components/VideoPlayer.tsx:13 | in a `watch?v=` link the only capture is the id after `v=` |
| YouTube.ShortCaptureUnique | src/components/VideoPlayer.tsx:13 | in a short link the only capture is the id after `youtu.be/` |
| YouTube.InertWithoutSlashOrV | src/components/VideoPlayer.tsx:17 | a query string without '/' and 'v' adds no path segment and no `v=` parameter |
| VideoPlayer.TrailerSource | src/components/VideoPlayer.tsx:24-26 | no iframe at all exactly for an empty URL; otherwise the normalised URL, which is never empty |
| VideoPlayer.TrailerQueryInert | src/components/VideoPlayer.tsx:17 | the player's query string `?autoplay=1&rel=0` is inert |
| VideoPlayer.TrailerSourceStable | src/components/VideoPlayer.tsx:12-26 | a trailer URL that is already this player's embed URL is shown unchanged |
| VideoPlayer.ShortLinkTrailer | src/components/VideoPlayer.tsx:12-26 | a short link is shown as the embed URL of its id |
| VideoPlayer.WatchLinkTrailer | src/components/VideoPlayer.tsx:12-26 | a `watch?v=` link is shown as the embed URL of its id |
| WatchNow.MovieTitle | src/pages/WatchNow.tsx:31 | the `title` parameter when present and non-empty, "Filme" otherwise; never empty |
| WatchNow.VideoUrlParam | src/pages/WatchNow.tsx:32 | the `videoUrl` parameter, empty exactly when it is missing or empty |
| WatchNow.WatchEmbedUrl | src/pages/WatchNow.tsx:66 | empty exactly for an empty video URL, otherwise the normalised URL with the watch page's query string |
| WatchNow.WatchQueryInert | src/pages/WatchNow.tsx:21 | the watch page's query string is inert |
| WatchNow.WatchEmbedShortLink | src/pages/WatchNow.tsx:66 | a short link plays as the embed URL of its id |
| WatchNow.WatchEmbedWatchLink | src/pages/WatchNow.tsx:66 | a `watch?v=` link plays as the embed URL of its id |
| WatchNow.WatchEmbedStable | src/pages/WatchNow.tsx:66 | an embed URL this page produced is kept as it is |
| WatchNow.ScreenBackdrop | src/pages/WatchNow.tsx:75-94 | the player frame captioned "Assistindo - title" exactly when there is an embed URL, otherwise the title card with "Reproduzindo..." or "Pausado" |
| WatchNow.Pad2 | src/pages/WatchNow.tsx:60 | two-digit padding gives digits, exactly two below 100 |
| WatchNow.Pad2Value | src/pages/WatchNow.tsx:60 | padding keeps the value and starts with '0' exactly below ten |
| WatchNow.FormatTime | src/pages/WatchNow.tsx:54-63 | `formatTime` gives a well-formed `M:SS` or `H:MM:SS` text (all digits, two-digit seconds and minutes below 60, no leading zero in front), with three fields exactly from one hour on, whose base-60 value is the input |
| WatchNow.FormatTimeOf | src/pages/WatchNow.tsx:54-63 | `formatTime` of `h*3600 + m*60 + x` prints `h`, `m` and `x` |
| WatchNow.FormatTimeRoundTrip | src/pages/WatchNow.tsx:54-63 | reading back the clock text (splitting at ':' and reading the digit fields in base 60, as `ParseClock` does) gives the number of seconds |
| WatchNow.FormatTimeInjective | src/pages/WatchNow.tsx:54-63 | different times print differently |
| WatchNow.FormatTimeZero | src/pages/WatchNow.tsx:62 | 0 seconds print as "0:00" |
| WatchNow.FormatTimeMinute | src/pages/WatchNow.tsx:62 | 65 seconds print as "1:05" |
| WatchNow.FormatTimeHour | src/pages/WatchNow.tsx:60 | 3661 seconds print as "1:01:01" |
| WatchNow.FormatTimeDuration | src/pages/WatchNow.tsx:156 | the fixed duration of 7320 seconds prints as "2:02:00" |
| WatchNow.Advance | src/pages/WatchNow.tsx:48 | one interval callback adds a second below the duration and stays at the duration |
| WatchNow.TicksFromStart | src/pages/WatchNow.tsx:45-52 | after n callbacks from 0 the clock shows min(n, duration) |
| WatchNow.TicksFrom | src/pages/WatchNow.tsx:45-52 | after n callbacks from t the clock shows min(t + n, duration) |
| WatchNow.TicksAtEnd | src/pages/WatchNow.tsx:48 | once at the duration, further callbacks leave the clock there |
| WatchNow.Player.constructor | src/pages/WatchNow.tsx:34-38 | playing, unmuted, controls shown, at second 0 of 7320 |
| WatchNow.Player.Tick | src/pages/WatchNow.tsx:45-52 | while playing the clock advances by one second up to the duration; paused, nothing changes; the clock never passes the duration |
| WatchNow.Player.TogglePlay | src/pages/WatchNow.tsx:133 | the play state flips and nothing else changes |
| WatchNow.Player.ToggleMute | src/pages/WatchNow.tsx:196 | the mute state flips and nothing else changes |
| WatchNow.Player.PointerMove | src/pages/WatchNow.tsx:71 | moving the pointer shows the controls |
| WatchNow.Player.HideControls | src/pages/WatchNow.tsx:40-43 | the three-second timeout hides the controls |
| WatchNow.Player.TimeLabels | src/pages/WatchNow.tsx:155-156 | both labels are well-formed `M:SS` or `H:MM:SS` clock texts that read back as the current time and the duration |
| Dashboard.FeaturedMovies | src/pages/Dashboard.tsx:69 | the featured movies of the table are the movies with ids 1, 3 and 6, in that order |
| Dashboard.FeaturedSix | src/pages/Dashboard.tsx:69 | the featured filter on six movies flagged yes, no, yes, no, no, yes keeps the first, third and sixth |
| Dashboard.FilteredMovies | src/pages/Dashboard.tsx:70-73 | the search results are a subsequence of the table, all matching, at most six |
| Dashboard.View | src/pages/Dashboard.tsx:114-150 | the hero (the first featured movie, id 1) appears exactly for an empty term; the heading names the term; "nothing found" appears exactly when the results are empty, otherwise the results grid |
| Dashboard.EmptyTermShowsAll | src/pages/Dashboard.tsx:114-150 | with an empty term the page shows the hero and the whole table |
| Dashboard.FilteredCaseInsensitive | src/pages/Dashboard.tsx:70-73 | a term and its lower-cased form give the same results |
| Admin.FormFromMovie | src/pages/Admin.tsx:97-106 | the edit form copies title, genre, rating, image and featured, uses "" for a missing description or trailer URL, and the current year for a missing or zero year |
| Admin.BlankForm | src/pages/Admin.tsx:25-34 | the blank form: empty texts, rating 0, not featured, the current year |
| Admin.Payload | src/lib/api.ts:3-14 | a form is sent as a movie without id and video URL, with every other field present and equal to the form's |
| Admin.FormRoundTrip | src/pages/Admin.tsx:95-108 | filling the form from what a form sends gives the same form back, for a non-zero year |
| Admin.EditRoundTrip | src/pages/Admin.tsx:95-108 | editing a complete movie and sending the form unchanged sends the movie back without id and video URL |
| Admin.ApplyEdit | src/pages/Admin.tsx:200 | an input change shows the entered value and leaves every other field as it was |
| Admin.LaterEditWins | src/pages/Admin.tsx:200 | of two edits to the same field the later wins |
| Admin.EditsCommute | src/pages/Admin.tsx:213 | edits to different fields commute |
| Admin.FieldsDetermineForm | src/pages/Admin.tsx:25-34 | forms agreeing on all eight fields are equal |
| Admin.AdminScreen.constructor | src/pages/Admin.tsx:17-34 | no movies, empty search, loading, dialog closed, nothing edited, blank form |
| Admin.AdminScreen.StartLoading | src/pages/Admin.tsx:45-47 | loading starts; nothing else changes |
| Admin.AdminScreen.FinishLoading | src/pages/Admin.tsx:48-61 | the answered list, or no movies on failure; loading ends either way; nothing else changes |
| Admin.AdminScreen.SubmitRequest | src/pages/Admin.tsx:64-74 | an update (with the edited movie's possibly missing id) exactly when a movie is being edited, a create otherwise, with the form as body |
| Admin.AdminScreen.SubmitAnswered | src/pages/Admin.tsx:80-92 | on success the dialog closes, nothing is edited, the form is blank (also over edits made while waiting) and a reload starts; on failure nothing changes |
| Admin.AdminScreen.Edit | src/pages/Admin.tsx:95-108 | the movie is remembered, the form filled from it and the dialog opened |
| Admin.AdminScreen.Delete | src/pages/Admin.tsx:110-126 | a delete of the given, possibly missing, id; on success a reload starts; the list is untouched until the reload answers |
| Admin.AdminScreen.ResetForm | src/pages/Admin.tsx:128-139 | the form is blank with the current year; nothing else changes |
| Admin.AdminScreen.OpenCreateDialog | src/pages/Admin.tsx:141-145 | nothing edited, blank form, dialog open |
| Admin.AdminScreen.SetDialogOpen | src/pages/Admin.tsx:179 | the dialog's open state is set; the edited movie and form are kept |
| Admin.AdminScreen.SetSearchTerm | src/pages/Admin.tsx:174 | the search term is set; nothing else changes |
| Admin.AdminScreen.EditField | src/pages/Admin.tsx:200-288 | the form takes the edit; nothing else changes |
| Admin.AdminScreen.FilteredMovies | src/pages/Admin.tsx:147-150 | exactly the loaded movies matching the search term, in order |
| Admin.AdminScreen.View | src/pages/Admin.tsx:314-332 | a loading notice exactly while loading; otherwise cards of the filtered movies, or a message when none match, offering creation exactly when the term is empty |
| Admin.EmptyTermListsAll | src/pages/Admin.tsx:318-324 | with an empty term the "no movies" message shows exactly when nothing is loaded, otherwise every loaded movie is listed |
| Profile.Initials | src/pages/Profile.tsx:105 | the initials have one letter per non-empty space-separated part of the name |
| Profile.InitialsAreWordStarts | src/pages/Profile.tsx:105 | the initials are exactly the characters that begin a word of the name |
| Profile.InitialsOfTwoWords | src/pages/Profile.tsx:105 | two words separated by one space give their two first letters |
| Profile.InitialProfileInitials | src/pages/Profile.tsx:31 | the initial profile "João Silva" shows "JS" |
| Profile.ApplyEdit | src/pages/Profile.tsx:176 | an input change sets its own field and keeps every other field |
| Profile.EditsKeepPlanAndJoinDate | src/pages/Profile.tsx:176-211 | no sequence of edits changes the plan or the join date |
| Profile.FavoritesCount | src/pages/Profile.tsx:156 | the counter is decimal digits reading back as the number of favourites |
| Profile.FavoritesCountShown | src/pages/Profile.tsx:53-57 | the three favourites show "3" |
| Profile.ProfileScreen.constructor | src/pages/Profile.tsx:29-37 | not editing, the initial profile |
| Profile.ProfileScreen.PressHeaderButton | src/pages/Profile.tsx:39-45 | the header button flips edit mode and leaves the profile as it is |
| Profile.ProfileScreen.Edit | src/pages/Profile.tsx:176-212 | an input change in edit mode applies the edit and keeps plan and join date |
| Profile.ProfileScreen.AvatarText | src/pages/Profile.tsx:105 | the avatar shows the word-initial characters of the current name |
| MovieDetails.MovieIdParam | src/pages/MovieDetails.tsx:71 | the `id` parameter when present and non-empty, "1" otherwise |
| MovieDetails.Index | src/pages/MovieDetails.tsx:72 | `movieData[movieId]`: the table's entry for its own keys, the inherited member for the names `Object.prototype` provides, `undefined` otherwise |
| MovieDetails.LookupAsWritten | src/pages/MovieDetails.tsx:72 | the `||` fallback never yields `undefined`, and keeps an inherited member exactly for those names |
| MovieDetails.ConstructorEscapesFallback | src/pages/MovieDetails.tsx:72 | the id "constructor" yields an inherited function instead of a movie |
| MovieDetails.Lookup | src/pages/MovieDetails.tsx:72 | the movie shown: the table's own entry for "1", "2" and "3", entry "1" for every other id |
| MovieDetails.LookupAgreesOffPrototype | src/pages/MovieDetails.tsx:72 | the written lookup and the intended one agree on every id that is not an inherited name |
| MovieDetails.EveryMovieHasTrailer | src/pages/MovieDetails.tsx:60 | every movie shown has the `watch?v=dQw4w9WgXcQ` trailer |
| MovieDetails.DefaultMovie | src/pages/MovieDetails.tsx:71-72 | a page without an id shows entry "1" |
| MovieDetails.WatchTarget | src/pages/MovieDetails.tsx:76-78 | split at '&', the watch navigation target is the pieces of `/watch?id=` and the raw id, followed by one `title=` piece with the encoded title (which `encodeURIComponent` keeps free of '&'); for an id without '&' exactly the two pieces `/watch?id=<id>` and `title=<encoded title>` |
| MovieDetails.IdInjectsParameter | src/pages/MovieDetails.tsx:76-78 | an id holding one '&' (such as "2&title=X" from `?id=2%26title%3DX`) adds its second part as a parameter of its own, in front of the page's `title` |
| MovieDetails.DetailsScreen.constructor | src/pages/MovieDetails.tsx:70-74 | the looked-up movie, no trailer selected |
| MovieDetails.DetailsScreen.OpenTrailer | src/pages/MovieDetails.tsx:153-157 | the trailer button selects the movie's trailer URL and title |
| MovieDetails.DetailsScreen.CloseTrailer | src/pages/MovieDetails.tsx:249 | closing the player clears the selection |
| MovieDetails.DetailsScreen.Props | src/pages/MovieDetails.tsx:247-252 | the player is open exactly while a trailer is selected, and gets empty URL and title otherwise |
| MovieDetails.TrailerPlaysEmbedded | src/pages/MovieDetails.tsx:247-252 | whichever movie is shown, its trailer plays as the embed URL of `dQw4w9WgXcQ` |
| Login.Decide | src/pages/Login.tsx:22-34 | the delayed check navigates to the dashboard exactly when both captured values are non-empty |
| Login.LoginForm.constructor | src/pages/Login.tsx:10-12 | empty fields, not loading, nothing pending, no navigation |
| Login.LoginForm.SetEmail | src/pages/Login.tsx:60 | the email is set; nothing else changes |
| Login.LoginForm.SetPassword | src/pages/Login.tsx:72 | the password is set; nothing else changes |
| Login.LoginForm.Submit | src/pages/Login.tsx:16-21 | loading starts and the check is scheduled on the current field values |
| Login.LoginForm.Complete | src/pages/Login.tsx:21-36 | loading ends; the page navigates to the dashboard exactly when the captured values are both non-empty |
| Login.SubmitAndWait | src/pages/Login.tsx:16-36 | a submit and its timer navigate to the dashboard exactly when both fields were filled in at submit time, and the form is ready again |

## Left out

- JSX rendering, styling, icons, toasts, `console.error` and the navigation buttons that only call `navigate` with a constant route are not modelled.
- React's rendering and effect scheduling are not modelled. Each state update of a handler is applied at once, in order.
- Timers are explicit events: `Player.Tick` for the one-second interval, `Player.HideControls` for the three-second timeout, `LoginForm.Complete` for the one-second sign-in delay. Their real-time spacing is not modelled.
- Admin.AdminScreen.SubmitRequest and Admin.AdminScreen.SubmitAnswered: `handleSubmit` awaits the API between issuing the request and reacting to the answer, so they are two steps. Edits made in between are not in the request and are wiped by a successful answer.
- The network is not modelled. Each API call's outcome is an `ApiResult` parameter, and any thrown error is `Failed`. The request a handler sends is returned as a `Request` value.
- After a successful submit or delete, `loadMovies` is called without `await`. The model splits it into `StartLoading`, which runs inside the handler, and `FinishLoading`, which the caller applies when the answer arrives. Interleavings of several overlapping reloads are not modelled.
- `toLowerCase` and `encodeURIComponent` are function parameters. `new Date().getFullYear()` is an integer parameter.
- Ratings are `real`. The watch page's `progressPercentage` is floating-point and is not modelled.
- `parseInt` and `parseFloat` in the year and rating inputs are not modelled. The edit carries the number already parsed, so a `NaN` from an unparsable input is not represented.
- Strings are sequences of Unicode characters, while JavaScript indexes UTF-16 code units. `n[0]` on a name that starts with a character outside the Basic Multilingual Plane would give half a surrogate pair. The model gives the whole character. Likewise the id pattern `[^"&?\/\s]{11}` counts UTF-16 code units, so an id holding such a character counts it twice there and once in `YouTube.IsVideoId` and `YouTube.IdAt`.
- WatchNow.FormatTimeRoundTrip and WatchNow.FormatTimeInjective: hold for every natural. JavaScript numbers are doubles, so above 2^53 seconds are not exact and from 10^21 on `toString` uses exponent notation. The page only formats times between 0 and the duration of 7320 seconds, far below both.
- Login.LoginForm.Submit and Login.SubmitAndWait: the browser's own check of the email input's `type="email"` is not modelled. A non-empty email the browser rejects blocks the submit, while the model lets it through and navigates.
- Admin.AdminScreen.SubmitRequest: the browser's own form checks are not modelled: `required` on title, rating and image, `type="url"` on the image and trailer URL inputs, and the `min`, `max` and `step` bounds on year and rating. A form that fails them is never submitted, while the model builds a request from any form.
- MovieDetails.WatchTarget: states the pieces of the target split at '&', not how the router parses it. The raw id is not escaped, so other URL syntax in it also changes the meaning: a '#' (from `?id=1%23x`) starts a fragment that swallows the `title` parameter, and the watch page then shows its default title.
- Dashboard.View: the home page's `searchTerm` state is a parameter of the view, not a field of a class. The search box's `onChange` is not modelled as an event; each term gives its own view, so no state between keystrokes is captured.
- Imported image assets in the home page's table are represented by their file names.
- The page `ContentNotFound` is not part of this model.
- Login.LoginForm.Submit: requires that no sign-in is pending. The submit button is disabled while loading, so a second submit cannot happen from the page. Pressing Enter is not a second route here, because implicit submission does nothing when the default button is disabled.
- Profile.ProfileScreen.Edit: requires edit mode. The inputs are disabled outside it, so an input change can happen only in edit mode.
- MovieDetails.DetailsScreen.OpenTrailer: requires a non-empty trailer URL. The trailer button is rendered only then.
- Dashboard.FilteredMovies: states the subsequence, match and size facts only. The exact selection, with multiplicities, is Catalog.Search's contract, which it returns.
- MovieDetails.Lookup: describes what the page evidently intends. The page as written is `LookupAsWritten`. For an inherited name the page would go on to read fields such as `cast` of a function or of the prototype object. That rendering, and the error it raises, are not modelled.

## Findings

| source | as written | input that shows it | evidently intended | confidence | as-written member | corrected member |
|---|---|---|---|---|---|---|
| src/pages/MovieDetails.tsx:72 | `movieData[movieId] \|\| movieData["1"]` indexes a plain object literal, so a name `Object.prototype` provides yields an inherited member (a function, or the prototype object for `__proto__`), which is truthy and skips the fallback | `?id=constructor` | every id other than "1", "2" and "3" falls back to entry "1" (e.g. with an own-property check) | not executed | MovieDetails.ConstructorEscapesFallback | MovieDetails.Lookup |
