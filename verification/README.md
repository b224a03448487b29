# Popcorn Party: a Dafny model of its logic

Popcorn Party is a small social movie-tracking web application. It is a thin client over a
Firestore document store and the TMDb catalog API. This project models, in Dafny, the
sequential logic the application runs between those two services, and proves what that
logic promises:

- the "for you" recommendations: genre scoring over the user's watched movies, the
  top-rated pick with its fallback to the most recent, the exclusion of watched ids, and the
  per-genre cut followed by first-occurrence de-duplication (`Recommendations`);
- the home-page activity feed: fan-out over the followed users, flattening, display-name
  labelling, newest-first stable sort and the cut to 20 (`ActivityFeed`);
- the two keyed stores: activity records under `${userId}_${tmdbId}` with rating and review
  normalisation and merge-upsert (`Activity`), and follow edges under
  `${followerId}_${followingId}` with follow, unfollow, toggle and the id queries
  (`Relationships`);
- the TMDb helpers: query-parameter building, the genre tables, image addresses and the
  key check (`Tmdb`);
- the search page: genre-parameter parsing, query cleaning, the result filter, the
  paginated merge with de-duplication, and the address parameters (`Search`); the genre
  toggle of the filter sidebar (`FiltersSidebar`);
- the friend search on the home page (`Home`), the feed line (`FeedItem`), and the two
  authentication error tables (`AuthErrors`, `LoginPage`).

Every remote call becomes an input. The store is a `map` keyed by document id, or a given
query result in store order. A catalog lookup is a function from id to `Option`, where
`None` stands for a call that throws. A failed write is a `fault: Option<string>` argument.
JavaScript values are the datatype `JsValues.Value`. Numbers are exact `real`s, and where
JavaScript would produce NaN the model yields `None`. `JsValues` also models the few
language operations the code relies on: truthiness, `||`, `String`, `Number`, `trim`,
`toLowerCase`, `split` and `join`. `Seqs` holds the list operations: `slice`, `filter`, a
stable sort (`Array.prototype.sort` is stable) and de-duplication by key.

The stores are classes whose methods update a `map` field. Each method is proved against a
pure transition function, and the lemmas are stated about those functions. Loops of the
source are `while` loops with invariants, each proved against a reference function:
- the genre scoring with its details cache;
- the rated/unrated split;
- the sequential detail fetches;
- the per-genre discover calls;
- the `seen`-set de-duplications;
- the feed fan-out and name lookups;
- the `URLSearchParams` updates.

Two safeguards one might expect are absent from the code, so neither is modelled. The
recommendations hook declares an abort-controller reference and aborts it before each new
request (`hooks/useRecommendations.js:35` and `:118-119`), but never assigns it, so no
earlier request is ever cancelled. Sign-up trims the username (`app/signup/page.js:25`) but
checks no length.

## Model

| member | source | states |
|---|---|---|
| Recommendations.TallyMeaning | services/recommendations.js:21-46 | after the scoring loop, each genre's score is the sum over the records having it of the numeric rating or 1, its count is the number of such appearances, and a genre is present exactly when its count is positive |
| Recommendations.AddGenresEffect | services/recommendations.js:35-45 | adding one record's genres adds its weight and 1 once per appearance of a genre, and touches no other genre |
| Recommendations.ScoresMeaning | services/recommendations.js:47-48 | every finished genre carries the reference score and count of its id, and `avg = score / count` |
| Recommendations.TopGenresMeaning | services/recommendations.js:47-50 | exactly `max` of the scored genres (all of them when there are fewer), drawn from them as a multiset, ordered by average, each with the reference score, count and average over the first 200 records, and no omitted genre has a higher average than a kept one |
| Recommendations.TopGenresForUser | services/recommendations.js:10-51 | the loop with its details cache computes the top genres; only truthy ids are looked up, and an id is looked up twice only after its earlier lookup failed |
| Recommendations.AddRecordGenres | services/recommendations.js:35-45 | the inner loop adds one record's genres to the tally as the reference definition does |
| Recommendations.PicksRated | services/recommendations.js:63-81 | when some record has a numeric rating, the picks are exactly `max` of the rated records with an id (all of them when there are fewer), drawn from them as a multiset, best first, and no rated record left out is rated higher than a pick |
| Recommendations.PicksFallback | services/recommendations.js:73-81 | with no rated record, the picks are exactly `max` of the records with an id (all of them when there are fewer), drawn from them as a multiset, latest first (a missing timestamp counts as 0), and none left out is later than a pick |
| Recommendations.SplitStep | services/recommendations.js:65-70 | one more record goes to the rated group, the unrated group, or neither |
| Recommendations.TopRatedMovies | services/recommendations.js:54-92 | the split, sort and sequential detail fetches return the reference top-rated movies, at most `max` of them |
| Recommendations.FetchEach | services/recommendations.js:82-91 | the details of the picks in order, a failed fetch skipped |
| Recommendations.WatchedIdsMeaning | services/recommendations.js:95-109 | the watched ids are distinct and are exactly the truthy `tmdbId` values of the records |
| Recommendations.TmdbIdsMeaning | services/recommendations.js:104-107 | a value is collected exactly when it is the truthy id of some record |
| Recommendations.WatchedMovieIds | services/recommendations.js:103-108 | the `Set` loop returns the ids in first-appearance order without repeats |
| Recommendations.GenreSuggestions | services/recommendations.js:131-142 | one discover call per top genre in order, and each genre's first six unwatched results appended; a failed call adds nothing |
| Recommendations.BecauseYouWatched | services/recommendations.js:149-161 | one recommendations call exactly when the first top movie has a truthy id, and at most twelve unwatched results from it |
| Recommendations.GetForYouRecommendations | services/recommendations.js:111-164 | the result and the discover and recommendations calls made are those of the reference definition, including the three early returns with the empty shape |
| Recommendations.NotWatchedMeaning | services/recommendations.js:135-137 | the exclusion keeps exactly the movies whose numeric id is not strictly equal to a watched id |
| Recommendations.GenrePicksMeaning | services/recommendations.js:132-141 | one genre adds nothing when its discover call fails, and otherwise the first six unwatched movies of its page (all of them when there are fewer), in page order |
| Recommendations.InterestRawByGenre | services/recommendations.js:131-142 | before de-duplication the genre suggestions are the genres' picks one after the other, in genre order; a movie is among them exactly when it is among some genre's picks |
| Recommendations.InterestRawMeaning | services/recommendations.js:132-142 | before de-duplication the genre suggestions hold at most six movies per genre, none watched |
| Recommendations.InterestUnwatched | services/recommendations.js:135-147 | the de-duplicated genre suggestions hold no watched id |
| Recommendations.BecauseUnwatched | services/recommendations.js:155-157 | the "because you watched" list holds no watched id |
| Recommendations.ForYouUnwatched | services/recommendations.js:130-161 | neither suggestion list holds a movie whose numeric id is the id of a watched record |
| Recommendations.ForYouShape | services/recommendations.js:143-161 | `interestBased` has distinct ids, is an ordered sub-list of the raw suggestions keeping each id's first occurrence, has exactly the ids of the raw suggestions, and holds at most 18 movies; `becauseYouWatched` holds at most 12 |
| Recommendations.ForYouEmpty | services/recommendations.js:111-128 | the empty shape comes exactly from a falsy user id, a failed store read, or no genre and no movie, and then no discover or recommendations call is made; no top movie or one without an id gives an empty "because you watched" list |
| Recommendations.TallyWithoutIds | services/recommendations.js:21-23 | records without an id add nothing to the scores |
| Recommendations.NoIdsNoCalls | services/recommendations.js:126-128 | when no record among the first 200 has an id, the result is the empty shape and no discover or recommendations call is made |
| Recommendations.StringIdsExcludeNothing | services/recommendations.js:135-137 | ids stored as strings never equal a numeric catalog id, so they exclude nothing |
| ActivityFeed.Record | hooks/useActivityFeed.js:50 | a record is the document's fields with `id` set to the document id unless the document stores its own `id` |
| ActivityFeed.FanOut | hooks/useActivityFeed.js:42-52 | the per-user queries: it fails exactly when some query fails, and otherwise returns each followed user's first 20 records, user by user |
| ActivityFeed.LookupNames | hooks/useActivityFeed.js:57-71 | the name map holds a name exactly for each author whose user document exists: username, else e-mail, else the id |
| ActivityFeed.LoadFeed | hooks/useActivityFeed.js:26-87 | the items and the users queried are those of the reference definition: empty with no user, a failed or empty following list, or any failure |
| ActivityFeed.EmptyFeed | hooks/useActivityFeed.js:27-39 | with no user, a failed following query or no followed user, the feed is empty and no activity query is made |
| ActivityFeed.FeedOrder | hooks/useActivityFeed.js:76-80 | the feed is exactly the first 20 labelled records (all of them when there are fewer), ordered newest first with a missing time as 0, is the first part of the sorted list, and items with equal times keep their merge order |
| ActivityFeed.EnrichMeaning | hooks/useActivityFeed.js:59-75 | labelling sets `userName` to the author's username, else e-mail, else id, or to the record's `userId` without a document, and changes no other field |
| ActivityFeed.FlattenOrigin | hooks/useActivityFeed.js:42-52 | every merged record is one of the first 20 records of some followed user's query |
| ActivityFeed.FeedSource | hooks/useActivityFeed.js:72-80 | every feed item is the labelled form of a merged record |
| ActivityFeed.FeedOrigin | hooks/useActivityFeed.js:42-80 | every feed item is a labelled merged record, and, when the queries honour their filter, its author is a followed user |
| Activity.FinalRating | services/activity.js:34-38 | the stored rating is `Number(rating)` when that is a number in [0, 10], and `null` otherwise |
| Activity.SafeReview | services/activity.js:39-41 | the stored review is a prefix of the trimmed text, at most 500 characters, and the whole trimmed text when that is shorter |
| Activity.Payload | services/activity.js:24-51 | the written document has exactly the seven payload fields; its rating is the normalised rating argument after the `null` default, and its timestamp the write time |
| Activity.Validate | services/activity.js:27-30 | the arguments pass exactly when user id, catalog id, media type and status are all present |
| Activity.Merge | services/activity.js:52 | a merge write overwrites the payload fields, keeps the document's other fields and every other document, and creates the document when absent |
| Activity.Remove | services/activity.js:75-82 | a removal deletes only the pair's document |
| Activity.UpsertErrors | services/activity.js:27-30 | an update fails exactly on a missing argument or a failed write, and names the first missing argument |
| Activity.MergeAgain | services/activity.js:52 | a merge whose payload writes every field an earlier merge wrote leaves the document as if only it had been merged |
| Activity.UpsertIdempotent | services/activity.js:32-52 | repeating an update, at any later time, leaves the store as one update at that time would, so the pair keeps a single record; at the same time it changes nothing |
| Activity.UpsertThenLookup | services/activity.js:32-67 | after an update, a lookup of the pair finds a record holding every written field and every other field of the earlier record, or exactly the written fields when there was none |
| Activity.RemoveThenLookup | services/activity.js:61-82 | after a removal, a lookup of the pair finds nothing |
| Activity.RatingKept | services/activity.js:34-38 | a numeric rating is kept exactly when it lies in [0, 10] |
| Activity.OmittedRatingIsZero | services/activity.js:24-38 | an omitted rating, like an explicit `null`, is stored as 0, since the `null` default goes through `Number` |
| Activity.RatingFromText | services/activity.js:34-38 | a rating given as digit text is stored as its number |
| Activity.StringIdSharesKey | services/activity.js:32-45 | the id `"7"` and the number 7 share one document key, yet are stored as different values |
| Activity.ActivityStore.UpdateMediaStatus | services/activity.js:19-53 | the store becomes the merge-upsert, or stays unchanged with the error thrown |
| Activity.ActivityStore.GetUserMediaStatus | services/activity.js:61-67 | `null` without a read for a missing id; otherwise a failed read rejects with its error, and a successful one gives the record stored under the pair's key, or `null` |
| Activity.ActivityStore.RemoveMediaStatus | services/activity.js:75-82 | missing ids are rejected; otherwise only the pair's document is deleted |
| Relationships.FirstUnderscore | services/relationships.js:25 | without `_` in the follower id, the first `_` of an edge key ends the follower id |
| Relationships.EdgeKeyInjective | services/relationships.js:25 | for follower ids without `_`, two pairs share an edge key exactly when they are the same pair |
| Relationships.EdgeKeyCollision | services/relationships.js:25 | with `_` inside ids, two different pairs share one edge document |
| Relationships.Follow | services/relationships.js:21-27 | a follow fails exactly on a missing id, a self-follow or a failed write, and otherwise stores the edge under its key and changes nothing else |
| Relationships.Unfollow | services/relationships.js:34-45 | an unfollow fails exactly on a missing id or a failed delete, and otherwise removes only that edge |
| Relationships.IsFollowingRead | services/relationships.js:119-125 | false without a read for a missing id; otherwise a failed read throws its error, and a successful one tells whether the edge document exists |
| Relationships.ToggleNegates | services/relationships.js:130-143 | a toggle returns the negation of the prior state and, when it succeeds, that becomes the new state |
| Relationships.ToggleErrors | services/relationships.js:130-143 | a toggle fails exactly on a missing id, a failed `isFollowing` read, a self-follow or a failed write; a missing id is reported by `followUser` and a failed read with its own error |
| Relationships.ToggleTwice | services/relationships.js:130-143 | two successful toggles of the same pair restore the original edge set |
| Relationships.FollowListed | services/relationships.js:21-58 | after a follow, the followed id is among the follower's following ids |
| Relationships.TransitionsKeepKeys | services/relationships.js:21-45 | follow and unfollow keep every edge document under its own key |
| Relationships.RelationshipStore.FollowUser | services/relationships.js:21-27 | the edge set becomes the follow transition, or stays unchanged with the error thrown |
| Relationships.RelationshipStore.UnfollowUser | services/relationships.js:34-45 | the edge set becomes the unfollow transition; a failed delete is rethrown with the `unfollowUser: ` prefix |
| Relationships.RelationshipStore.IsFollowing | services/relationships.js:119-125 | false without a read for a missing id; otherwise the read's error, or whether the edge document exists |
| Relationships.RelationshipStore.ToggleFollow | services/relationships.js:130-143 | read the state, then unfollow when following, else follow, returning the new state or the error of the read or the write |
| Relationships.RelationshipStore.EdgeEnds | services/relationships.js:52-73 | the other end of every edge whose near end is the id, one per matching document, in store order |
| Relationships.RelationshipStore.GetFollowingIds | services/relationships.js:52-59 | the returned ids are exactly the followed ids of the follower's edges |
| Relationships.RelationshipStore.GetFollowerIds | services/relationships.js:66-73 | the returned ids are exactly the followers of the user's edges |
| Relationships.FoundUsers | services/relationships.js:80-94 | at most one document per requested id |
| Relationships.FoundUsersMeaning | services/relationships.js:80-94 | a document is returned exactly when it is the existing user document of a requested id |
| Relationships.GetUsersByIds | services/relationships.js:80-94 | the documents returned are, as a multiset, those of the existing users, failed reads skipped, and no more than the ids |
| Relationships.FindUsersByUsername | services/relationships.js:101-114 | no users for an empty term, else exactly the users whose username lies between the term and the term followed by U+F8FF |
| Relationships.RangeIsPrefix | services/relationships.js:104-111 | every username in the query's range starts with the term |
| Relationships.PrefixInRange | services/relationships.js:104-111 | the term itself, and the term followed by a character below U+F8FF, are in range |
| Tmdb.BuildUrl | services/tmdb.js:21-30 | the step-by-step `searchParams.set` calls produce the base address plus the reference query |
| Tmdb.BuildUrlMeaning | services/tmdb.js:21-30 | each name appears once; `api_key` is the key or `""`, `language` is `en-US` unless the caller passes it, and each caller parameter has its `String` value, the last one given winning |
| Tmdb.SetParamGet | services/tmdb.js:23-27 | after `set`, the name has the new value and every other name keeps its value |
| Tmdb.SetParamDistinct | services/tmdb.js:23-27 | `set` keeps the names distinct and adds the name |
| Tmdb.QueryAfterGet | services/tmdb.js:23-28 | after any prefix of the caller's parameters, each name has the caller's value when passed so far, else the base value |
| Tmdb.QueryAfterDistinct | services/tmdb.js:23-28 | the query built so far names each parameter once |
| Tmdb.GetByGenre | services/tmdb.js:206-210 | at most one name per id, each a name of the chosen table |
| Tmdb.NamesOfKnown | services/tmdb.js:209 | known ids give their names, one per id, in order |
| Tmdb.NamesOfUnknown | services/tmdb.js:209 | unknown ids give nothing |
| Tmdb.NamesAppend | services/tmdb.js:209 | the names of two id lists one after the other are the two name lists joined |
| Tmdb.GetByGenreDefaults | services/tmdb.js:206-208 | a type other than `tv` reads the movie table, and a single id reads as a one-id list |
| Tmdb.TablesShape | services/tmdb.js:152-192 | every table name is non-empty, and genre 10759 is in the TV table only |
| Tmdb.GetImageUrl | services/tmdb.js:224-227 | `null` exactly for a falsy path, else the image base address followed by the size and the path: `w500` when no size is passed, else the size's text |
| Tmdb.ImageSizeDefault | services/tmdb.js:224-227 | only an omitted size takes the `w500` default, which gives the address of an explicit `w500`; a `null` size is written as `null`; size and path can be read back from the address |
| Tmdb.AssertTmdbConfigured | services/tmdb.js:238-244 | fails exactly when the key is unset or empty, with the fixed message |
| Search.NumbersOfTexts | app/search/searchClient.jsx:38-41 | the texts of integers read back as the same numbers |
| Search.GenresRoundTrip | app/search/searchClient.jsx:36-42 | genre ids written with `join(",")` are parsed back as the same ids |
| Search.TrailingComma | app/search/searchClient.jsx:38-41 | a trailing comma adds genre 0, since an empty part reads as 0 |
| Search.NumbersAppend | app/search/searchClient.jsx:40-41 | parsing two lists of parts one after the other joins the results |
| Search.CleanQuery | app/search/searchClient.jsx:109 | the debounced query is a prefix of the trimmed query, at most 100 characters, and the whole trimmed query when that is short enough |
| Search.MediaTypeOf | app/search/searchClient.jsx:145-146 | `media_type` when truthy, else `movie`, `tv` or `person` |
| Search.PassesMeaning | app/search/searchClient.jsx:144-160 | a passing result is no person, with genres selected a movie sharing a genre, rated at least the minimum, and within the years when it has a non-zero year; and conversely every such result passes: without genres any non-person within the years and rating, with genres any movie sharing a genre within them |
| Search.UntitledIsPerson | app/search/searchClient.jsx:145-147 | a result without media type, title or name is a person and never passes |
| Search.LoadPage | app/search/searchClient.jsx:144-178 | a failed request empties the list; otherwise the filtered page replaces (page 1) or extends the list, de-duplicated by key |
| Search.MergedMeaning | app/search/searchClient.jsx:163-177 | after a merge no two items share a key, each key keeps its first item, and order is that of the combined list |
| Search.LaterPageKeepsPrefix | app/search/searchClient.jsx:164-177 | a later page keeps every earlier item in place when the earlier keys were distinct |
| Search.DedupDistinct | app/search/searchClient.jsx:165-177 | a list whose keys are distinct is its own de-duplication |
| Search.UrlParams | app/search/searchClient.jsx:79-87 | the address parameters name each parameter once |
| Search.SetIfGet | app/search/searchClient.jsx:80-87 | a conditional `set` gives the name its value when the condition holds and leaves every other name alone |
| Search.UrlParamsMeaning | app/search/searchClient.jsx:79-87 | `q` when non-empty, `genres` when some are selected, `ymin`, `ymax` and `rating` only when they differ from their defaults, each with its text |
| FiltersSidebar.ToggleGenre | components/search/FiltersSidebar.jsx:45-49 | a selected genre is removed everywhere; an unselected one is appended at the end |
| FiltersSidebar.ToggleMembership | components/search/FiltersSidebar.jsx:45-49 | after a click the genre is selected exactly when it was not, and every other id keeps its membership |
| FiltersSidebar.ToggleKeepsOthers | components/search/FiltersSidebar.jsx:47-48 | the other ids keep their relative order |
| FiltersSidebar.ToggleTwice | components/search/FiltersSidebar.jsx:46-48 | two clicks on an unselected genre give back the original list |
| Home.DoSearch | app/page.js:25-46 | nothing without a user; a blank term clears the list without a query; otherwise the trimmed term is queried, and the list is replaced, by at most 10 users, exactly when the query succeeds and no other user's username is truthy but not text; a rejected query or a throwing filter leaves it as it was |
| Home.DoSearchMeaning | app/page.js:36-41 | every shown user is a query result other than the signed-in user, with a text username equal to the trimmed term ignoring case; after a query the shown users are exactly the first 10 kept ones (all of them when there are fewer), in result order |
| Home.ShownMeaning | app/page.js:38-41 | the first 10 kept users are query results the filter keeps |
| Home.PrefixQueryKeepsExact | app/page.js:37-40 | over the username prefix query, the users kept are exactly the others whose username is the trimmed term, case included |
| Home.CaseDiffersNotFound | app/page.js:37-40 | a username equal to the term only ignoring case is never shown |
| FeedItem.Lookup | components/home/FeedItem.jsx:19-47 | no lookup without an id; otherwise movie details first, then show details; the fetched type is `movie`, `tv` or nothing |
| FeedItem.StatusText | components/home/FeedItem.jsx:52-60 | any status other than watchlist and watching is shown as it is |
| FeedItem.WatchlistShowsNoRating | components/home/FeedItem.jsx:49-84 | watchlist and watching lines show no rating, their status text, and the ` to Watchlist` suffix only on watchlist |
| FeedItem.RatedLine | components/home/FeedItem.jsx:49-84 | a numeric rating on any other status is shown as `rated` with the number, and no suffix follows |
| FeedItem.StatusVerbatim | components/home/FeedItem.jsx:52-77 | without a rating the status shows verbatim, and a missing status as `undefined` |
| FeedItem.TitleFallback | components/home/FeedItem.jsx:48 | the title is the fetched title, else the stored title, else the stored name, else the id's text |
| FeedItem.LinkTypeFallback | components/home/FeedItem.jsx:50 | the link type is the stored media type, else the fetched type, else guessed from the title, and always `movie` or `tv` without a stored type |
| FeedItem.ActorFallback | components/home/FeedItem.jsx:64 | the actor is the display name, else the user id |
| AuthErrors.GetErrorMessage | lib/authErrors.js:1-27 | a known code gives its message; the generic message comes exactly from an unknown code |
| AuthErrors.MessagesDistinct | lib/authErrors.js:2-23 | different known codes give different messages |
| AuthErrors.KnownCodes | lib/authErrors.js:3-25 | the fixed messages of the invalid-credential, invalid-email and weak-password codes, and the generic one for any other |
| LoginPage.GetAuthErrorMessage | app/login/page.js:34-51 | a known code gives its message; the generic message comes exactly from an unknown code |
| LoginPage.TablesCompared | app/login/page.js:34-51 | both tables give the same message for a wrong credential and a disabled account, different ones for an invalid email, and only the shared table knows a weak password |
| LoginPage.TablesAgree | app/login/page.js:34-51 | the two tables agree exactly on the two shared codes and on the codes neither knows |
| JsValues.TrimIdempotent | app/page.js:27 | trimming twice is trimming once, so the term the search queries is already trimmed |
| JsValues.TrimSurrounding | services/activity.js:39-41 | `trim` removes only whitespace, from both ends, and keeps the middle |
| JsValues.NumberOfIntText | app/search/searchClient.jsx:38-41 | `Number` of an integer's text is that integer |
| JsValues.SplitJoin | app/search/searchClient.jsx:38-39 | splitting a joined list gives the parts back when no part holds the separator |
| JsValues.JoinSplit | app/search/searchClient.jsx:38-39 | joining the parts of a split gives the text back |
| JsValues.SplitSeparatorLast | app/search/searchClient.jsx:38-39 | a trailing separator adds one empty part |

## Left out

- Remote I/O: HTTP requests to TMDb and Firestore reads, writes and queries. Their results are inputs. A failed catalog call or query is `None`; a failed write is a `fault` argument, and a failed single-document read in `isFollowing` and `getUserMediaStatus` a `readFault` argument.
- Store ordering: query results are given in store order. The scoring and top-rated queries read the first 200 records of the same sequence the watched-id query reads in full. The server-side `orderBy("timestamp", "desc")` of the feed's per-user query is taken as given.
- Promise ordering: the completion order inside `Promise.all`. `getUsersByIds` is stated up to a multiset, and the name lookups of the feed settle into a map, so their order does not matter.
- Timers, subscriptions and React state plumbing: the search debounce, `onSnapshot` listeners, the `active` flags, `setLoading`/`setSearching`, and `router.replace`. The address parameters are modelled; the comparison with the current address is not.
- `onToggleFollow` on the home page only calls `toggleFollow`, which is modelled.
- The search page's choice between search, discover and trending requests, and their parameters. These are remote calls whose results are inputs.
- Floating point: numbers are exact reals. NaN, the infinities and negative zero are not values; `Number` yielding NaN is `None`. `String` of a number is plain decimal notation with at most 20 fraction digits, never the exponent form. `Number` of text accepts signed decimals only, not exponents, hexadecimal or `Infinity`.
- Strings: characters are single code units. `toLowerCase` folds the ASCII letters only; `trim` removes the full set of white space and line terminator characters.
- Dates: the release year of a search result is an optional integer input, since `new Date(...).getFullYear()` is not modelled. The current year, the default maximum year, is an argument.
- Identifiers: document ids are strings, catalog ids in queries are values. Percent-encoding of addresses and prototype keys of plain objects are not modelled.
- Relationships.GetUsersByIds: states the result up to a multiset, because the source pushes in completion order.
- Relationships.RelationshipStore.EdgeEnds: iterates the edge documents in an unspecified order, standing for store order.
- JsValues.Split: does not state that no part holds the separator; the round trips `SplitJoin` and `JoinSplit` are stated instead.
- Recommendations.TopGenresForUser: the details cache stores only successful lookups, so a failed id is looked up again; the model states this instead of "once per id".
- Recommendations.TopGenresForUser: a catalog lookup gives the same answer for the same id within one call, so an id whose lookup failed fails again when looked up again; in the source the second request may succeed.
