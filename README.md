# Capwise suggestion core in Dafny

This project models the core of Capwise, a movie-swiping app. The backend records each swipe in a per-user profile. It rebuilds a taste profile (scores per genre, director, writer and actor) from the whole history, and answers `/suggest` with a batch of at most five movies the user has not yet seen. The batch comes from Gemini when the model answers. When the Gemini call throws, it comes from TMDB's popular list instead. The client keeps a deck of movie cards with a current index that advances on a swipe, refetches at the end of the deck and takes back an undone card. An infographic page aggregates the taste profile.

Modules, one per file:

- `Wrappers`: `Option`.
- `Sorting`: the stable comparator sort of `Array.prototype.sort`. It proves the result sorted and a permutation.
- `ScoreMap`: a JavaScript object from names to scores. It is an insertion-ordered association list, with `Get` (`obj[k] || 0`), `Bump` and `Filter`.
- `Text`: `split`, `join` and `trim`.
- `Profiles`: the profile documents (backend/models/User.js).
  - `_sanitizeKey`.
  - The taste-profile rebuild `Recalc`, with an independent reference definition of each score as a plain sum over the history.
  - The pure push, pop and reset transitions.
- `UserStore`: the store class over `map<string, Profile>`. Its methods update the map. Its invariant is that every taste profile is the rebuild of its own history. `RecalculateTasteProfile` is the loop of the source, proved equal to `Recalc`.
- `Tmdb`: the movie record projected from TMDB's details and credits.
- `Http`: status and body of the route answers.
- `SuggestionPrompt`: genre ranking, excluded titles, prompt text and reply parsing.
- `MovieRoutes`: `/interact` and `/suggest`.
  - The popularity paging loop and the AI loop are methods.
  - Each loop is proved equal to a left fold whose properties are proved as lemmas.
- `UserRoutes`: the watchlist projection and the mapping from store results to status codes.
- `MovieContext`: the swipe deck class of frontend/src/context/MovieContext.js.
- `SwipePage`: the hotkeys and the swipe of `MovieSwipePage` in frontend/src/App.js, over the same deck.
- `Infographic`: the integer parts of frontend/src/pages/Infographic.js.

External services are function parameters:

- `popular: int -> seq<Listing>` is one popular page after `getPopularMoviesFromTMDB`. Its errors already read as `[]`.
- `resolve: string -> Option<Movie>` is `getMovieDetailsFromTMDB`. `Tmdb.GetMovieDetails(search, lookup, ·)` is the glue that builds such a `resolve` from TMDB's search and lookup answers.
- `gemini: string -> Option<string>` is the reply text for a prompt. `None` means the call threw.
- The undo and suggestion answers the client receives are also parameters.

In these places the code does something easy to misread; the model follows the code:

- The popularity loop checks the id of the popular listing, but it pushes the id of the record found by title search. The batch guarantees are therefore stated over the checked listing ids.
- Fresh and distinct record ids are proved only when resolution preserves the id (`MovieRoutes.PopularAcceptFresh`). `MovieRoutes.PopularDuplicateWhenResolutionMoves` is a concrete batch with the same movie twice.
- `INTERACTION_THRESHOLD` is 0, so the cold-start branch is never taken. The popularity path runs only when Gemini throws. A short AI batch is not topped up.
- The infographic reads `tasteProfile.interactionCounts.total` and `tasteProfile.releaseYears`, but the backend's taste profile has neither field. The model keeps both as optional fields.
  - With counts missing, the page gate reads a property of `undefined`. This is the `RenderError` view.
  - With `releaseYears` missing, the timeline is empty.
- The infographic reads `profileName` from the movie context (frontend/src/pages/Infographic.js:16). The context value holds `userId` and no `profileName` (frontend/src/context/MovieContext.js:108-118). So `fetchTasteProfile` returns at once (line 35), loading never ends, and the page stays on the spinner. `Infographic.ShownGate` models the gate for the case where a profile does arrive.

## Model

| member | source | states |
|---|---|---|
| Profiles.SanitizeKey | backend/models/User.js:101-103 | the result has the key's length, every `.` becomes `_`, every other character is kept, and no `.` remains |
| Profiles.SanitizeIdempotent | backend/models/User.js:101-103 | sanitizing twice is sanitizing once |
| Profiles.RecalcAt | backend/models/User.js:105-156 | for every category and key, the rebuilt score is the sum over the history of (+1 for like/strong_like, -1 otherwise) times the number of the snapshot's names that sanitize to the key; the key is present exactly when some interaction with a snapshot names it |
| Profiles.RecalcDistinct | backend/models/User.js:113-153 | no key appears twice in a rebuilt score map |
| Profiles.RecalcPermutation | backend/models/User.js:113-153 | any reordering of the history gives the same keys with the same scores |
| Profiles.RecalcIgnoresMissingDetails | backend/models/User.js:116-120 | interactions without a snapshot change nothing, so the rebuild equals the rebuild of only those that have one |
| Profiles.LikeThenDislikeCancel | backend/models/User.js:122-129 | a like of a Drama movie gives Drama 1; a like then a dislike leaves the Drama key present with score 0 |
| Profiles.WithInteraction | backend/models/User.js:41-44 | the interaction is appended at the end, the taste profile is the rebuild of the new history, and the user id and suggestions are kept |
| Profiles.WithoutLastInteraction | backend/models/User.js:67-68 | the history loses exactly its last element, the taste profile is the rebuild of what remains, and the user id and suggestions are kept |
| Profiles.Reset | backend/models/User.js:89-91 | the same user with an empty history, no suggestions and a taste profile that is the rebuild of the empty history (four empty maps) |
| Profiles.UndoAfterAdd | backend/models/User.js:41-68 | for a consistent profile, adding an interaction and undoing it gives back the same profile, taste profile included |
| ScoreMap.Bump | backend/models/User.js:128 | `obj[k] = (obj[k] \|\| 0) + d` raises the score of `k` by `d` and leaves every other key's score alone |
| ScoreMap.BumpHas | backend/models/User.js:128 | after the update, the keys are the old keys plus `k` |
| ScoreMap.BumpShape | backend/models/User.js:128 | an existing key is updated where it stands; a new key is appended at the end |
| UserStore.Store.FindOrCreate | backend/models/User.js:8-31 | a known user's document is returned and the store is unchanged; an unknown user gets an empty document (no interactions, four empty maps, no suggestions), which is inserted; the store map afterwards holds the returned document, so a second call returns it unchanged |
| UserStore.Store.AddInteraction | backend/models/User.js:33-57 | an unknown user gives "User not found" and no change; otherwise exactly one interaction is appended and the taste profile is rebuilt, with nothing else changed |
| UserStore.Store.UndoLastInteraction | backend/models/User.js:59-85 | a missing user or an empty history gives `undone: false` with "No interactions to undo." and no change; otherwise only the last interaction is removed, the taste profile is rebuilt, and its snapshot is returned |
| UserStore.Store.ResetUserProfile | backend/models/User.js:87-99 | a known user's history, four score maps and suggestions are emptied and one document is replaced; an unknown user is left alone with 0 replaced |
| UserStore.Store.UpdateSuggestedMovies | backend/models/User.js:158-170 | for a known user only the suggestion list is replaced and every other document is unchanged; the update reports one document |
| UserStore.Store.GetUserProfile | backend/models/User.js:172-179 | the stored document exactly when there is one |
| UserStore.Store.RecalculateTasteProfile | backend/models/User.js:105-156 | the loop builds exactly the rebuild `Recalc` of the history |
| UserStore.Store.AccumulateKeys | backend/models/User.js:126-129 | the inner loop adds the score under each sanitized name in turn |
| Tmdb.FirstDirector | backend/routes/movieRoutes.js:30 | `None` exactly when no crew member's job is Director; otherwise the name of the first one who is |
| Tmdb.WriterNamesSound | backend/routes/movieRoutes.js:31 | one name per Writing-department crew member, and a name is listed exactly when such a member has it |
| Tmdb.Project | backend/routes/movieRoutes.js:36-46 | id, title and description copied; a cover exactly when there is a poster path, prefixed with the w500 base; an IMDb id exactly when there is one, and then it is the details' `imdb_id`; genre names, or none; the first director; the writers; the first five cast names, or fewer if the cast is shorter |
| MovieRoutes.Interact | backend/routes/movieRoutes.js:68-83 | a missing (falsy) field gives 400 and records nothing; an unknown user gives 500 and records nothing; otherwise 200, with exactly the store's addInteraction change |
| MovieRoutes.PopularAcceptBound | backend/routes/movieRoutes.js:112-117 | the popularity batch never exceeds 5 |
| MovieRoutes.PopularFull | backend/routes/movieRoutes.js:117 | once the batch holds 5, further listings change nothing |
| MovieRoutes.PopularAcceptSound | backend/routes/movieRoutes.js:116-131 | each accepted record was found by title for a titled listing whose listing id, when checked, was not interacted, not stored as suggested and not in the batch before it |
| MovieRoutes.PopularAcceptComplete | backend/routes/movieRoutes.js:116-131 | while the batch is short, every titled listing that resolves and is neither interacted nor stored as suggested made it in, either as its record or via a batch entry with its id |
| MovieRoutes.PopularAcceptFresh | backend/routes/movieRoutes.js:119-129 | when resolution keeps the listing id, the batch ids are pairwise distinct and none is interacted or stored as suggested |
| MovieRoutes.PopularDuplicateWhenResolutionMoves | backend/routes/movieRoutes.js:119-129 | two listings whose titles both resolve to movie 7 put movie 7 into the batch twice |
| MovieRoutes.FetchAndFilterPopularMovies | backend/routes/movieRoutes.js:110-135 | the loop stops after page n, where 1 <= n < 20; every page before n is non-empty and leaves the batch short of 5; at n the batch is full, n is 19 or page n is empty; the batch is the popularity fold over pages 1 to n |
| MovieRoutes.PopularStopUnique | backend/routes/movieRoutes.js:112-117 | that stopping page is unique, so the pages read are determined by what TMDB serves |
| MovieRoutes.FilterPage | backend/routes/movieRoutes.js:116-132 | the inner loop continues the fold over one page |
| MovieRoutes.AiAcceptSound | backend/routes/movieRoutes.js:180-196 | the AI batch has at most 5 records, their ids are pairwise distinct and none is interacted or stored as suggested, and each record was resolved from one of the titles |
| MovieRoutes.AiAcceptComplete | backend/routes/movieRoutes.js:180-196 | while the batch is short, every title that resolves to an id that is neither interacted nor stored as suggested has that id in the batch |
| MovieRoutes.AiFull | backend/routes/movieRoutes.js:181 | once the batch holds 5, further titles change nothing |
| MovieRoutes.CollectAiSuggestions | backend/routes/movieRoutes.js:180-196 | the loop builds exactly the AI fold over the parsed titles |
| MovieRoutes.AssembleBatch | backend/routes/movieRoutes.js:137-201 | at most 5 records. When Gemini answers the prompt built for the profile, the batch is the AI batch for the parsed reply, with no top-up. Otherwise it is the popularity batch over pages 1 to n, where n is the loop's unique stopping page. |
| MovieRoutes.SuggestedRecords | backend/routes/movieRoutes.js:128 | one `{ movieId, movieTitle }` record per accepted movie, in order |
| MovieRoutes.WithSuggestions | backend/routes/movieRoutes.js:203-206 | the stored suggestions become the old list followed by the new records, and nothing else in the profile changes |
| MovieRoutes.RecordSuggestions | backend/routes/movieRoutes.js:203-212 | the update writes exactly that appended list into the user's document |
| MovieRoutes.Suggest | backend/routes/movieRoutes.js:86-220 | an empty userId gives 400 and no change. Otherwise the answer is 200 with a batch as `AssembleBatch` states it for the found-or-created profile (the AI batch, or the popularity batch up to the unique stopping page), and the store holds that profile with the batch's records appended to its suggestions. |
| SuggestionPrompt.LikedGenresRanked | backend/routes/movieRoutes.js:144-147 | a genre is liked exactly when its score is > 0; no genre repeats; liked genres come in non-increasing score order |
| SuggestionPrompt.DislikedGenresRanked | backend/routes/movieRoutes.js:149-152 | a genre is disliked exactly when its score is < 0; no genre repeats; disliked genres come in non-decreasing score order |
| SuggestionPrompt.ZeroScoreUnranked | backend/routes/movieRoutes.js:144-152 | a genre scoring 0 is in neither list |
| SuggestionPrompt.Unique | backend/routes/movieRoutes.js:158 | `[...new Set(xs)]` has the same members as `xs` and no repeats |
| SuggestionPrompt.UniqueKeepsFirstOrder | backend/routes/movieRoutes.js:158 | the kept titles appear in the order of their first occurrence |
| SuggestionPrompt.InteractedTitlesIn | backend/routes/movieRoutes.js:155 | a title is listed exactly when it is non-empty and some interaction's snapshot has it |
| SuggestionPrompt.SuggestedTitlesIn | backend/routes/movieRoutes.js:156 | a title is listed exactly when it is non-empty and some stored suggestion has it |
| SuggestionPrompt.ExcludedTitlesSound | backend/routes/movieRoutes.js:155-158 | the excluded titles are exactly the non-empty interacted or suggested titles, without repeats, and in first-occurrence order over interacted-then-suggested |
| SuggestionPrompt.PromptFrame | backend/routes/movieRoutes.js:160-172 | every prompt starts with "Suggest 20 movies." and ends with " Provide only the movie titles, one per line." |
| SuggestionPrompt.PromptBare | backend/routes/movieRoutes.js:160-172 | with nothing liked, disliked or excluded, the prompt is the head followed by the tail |
| SuggestionPrompt.PromptLikesClause | backend/routes/movieRoutes.js:162-164 | the likes clause follows the head exactly when some genre is liked |
| SuggestionPrompt.PromptDislikesClause | backend/routes/movieRoutes.js:165-167 | the dislikes clause follows the likes part exactly when some genre is disliked |
| SuggestionPrompt.PromptExclusionClause | backend/routes/movieRoutes.js:168-170 | the exclusion clause follows the genre clauses exactly when some title is excluded |
| SuggestionPrompt.ParseTitlesWellFormed | backend/routes/movieRoutes.js:178 | every parsed title is non-empty, already trimmed, and the trim of some line of the reply |
| SuggestionPrompt.ParseTitlesRoundTrip | backend/routes/movieRoutes.js:178 | a reply made of non-empty trimmed single-line titles joined by newlines parses back to exactly those titles, in order |
| SuggestionPrompt.NonEmpty | backend/routes/movieRoutes.js:178 | `filter(title => title.length > 0)` keeps exactly the non-empty lines |
| SuggestionPrompt.NonEmptyConcat | backend/routes/movieRoutes.js:178 | the filter keeps order and multiplicity: filtering a concatenation is concatenating the filtered parts |
| SuggestionPrompt.NonEmptySingle | backend/routes/movieRoutes.js:178 | a single line is kept exactly when it is non-empty |
| Text.Split | backend/routes/movieRoutes.js:178 | there is at least one piece, and no piece contains the separator |
| Text.JoinSplit | backend/routes/movieRoutes.js:178 | joining the pieces of a split with the separator gives back the string |
| Text.SplitJoin | backend/routes/movieRoutes.js:178 | splitting a join of separator-free pieces gives back the pieces |
| Text.TrimSlice | backend/routes/movieRoutes.js:178 | `trim` returns a slice of the string with only white space cut at either end, and the result neither starts nor ends with white space |
| Text.TrimIdempotent | backend/routes/movieRoutes.js:178 | trimming twice is trimming once |
| Sorting.Sort | backend/routes/movieRoutes.js:146 | the comparator sort returns a sorted permutation of its input |
| ScoreMap.Filter | backend/routes/movieRoutes.js:145 | an entry is kept exactly when its score passes the test; distinct keys stay distinct |
| UserRoutes.WatchlistMembers | backend/routes/userRoutes.js:124-126 | a snapshot is on the watchlist exactly when some watchlist-type interaction carries it |
| UserRoutes.WatchlistLength | backend/routes/userRoutes.js:124-126 | the watchlist has one entry per watchlist-type interaction |
| UserRoutes.WatchlistConcat | backend/routes/userRoutes.js:124-126 | the projection keeps interaction order: the watchlist of a concatenation is the concatenation of the watchlists |
| UserRoutes.WatchlistAfterInteraction | backend/routes/userRoutes.js:124-126 | recording an interaction extends the watchlist by its snapshot exactly when it is a watchlist interaction |
| UserRoutes.WatchlistResponse | backend/routes/userRoutes.js:110-133 | 400 exactly for an empty name, 404 exactly for a missing profile, otherwise 200 with the watchlist |
| UserRoutes.TasteProfileResponse | backend/routes/userRoutes.js:173-188 | 404 exactly for a missing profile, otherwise 200 with its taste profile |
| UserRoutes.UndoResponse | backend/routes/userRoutes.js:89-108 | 400 exactly for an empty name. 200 with the snapshot exactly when something was undone. Otherwise 404 with the store's message, or the default message when the store gives none. |
| UserRoutes.UndoRoute | backend/routes/userRoutes.js:89-108 | the route over the store: 404 "No interactions to undo." with no change, or 200 with the popped snapshot and the history shortened by one |
| UserRoutes.RemoveInteractionResponse | backend/routes/userRoutes.js:152-171 | 400 exactly when the name or id is missing, 200 exactly when something was removed (with the count), otherwise 404 |
| UserRoutes.CreateProfile | backend/routes/userRoutes.js:17-36 | 400 for an empty name and 409 for a taken one, both with no change; otherwise 201 with the new empty profile, which is inserted |
| UserRoutes.ResetRoute | backend/routes/userRoutes.js:135-150 | 400 for an empty name; otherwise 200, and a known profile is reset |
| MovieContext.SpliceIndex | frontend/src/context/MovieContext.js:96 | where `splice(start, 0, x)` inserts: at `start` inside the array, at the end beyond it, counted from the end (floored at 0) when negative |
| MovieContext.SpliceInsert | frontend/src/context/MovieContext.js:94-98 | the copy is one longer, earlier elements stay, `x` is at the insertion point, later ones shift up by one |
| MovieContext.SpliceRemove | frontend/src/context/MovieContext.js:94-98 | removing the inserted element gives back the original array |
| MovieContext.Deck.CurrentMovie | frontend/src/App.js:86 | `movies[currentIndex]`, or none where JavaScript reads `undefined` |
| MovieContext.Deck.FetchMovies | frontend/src/context/MovieContext.js:24-43 | without a user nothing changes. A non-empty batch replaces the deck from index 0. An empty batch or an error empties the deck and keeps the index. Loading ends false. |
| MovieContext.Deck.HandleInteraction | frontend/src/context/MovieContext.js:57-83 | no movie or no user is a no-op. Otherwise `movieIndex + 1` becomes current when inside the deck, and past the end a refetch is asked for with the index unchanged. |
| MovieContext.Deck.HandleUndo | frontend/src/context/MovieContext.js:85-107 | a success answer with a snapshot splices it in at the current index, which then shows it; any other answer, or no user, leaves the deck unchanged; the index never changes |
| SwipePage.KeyCommand | frontend/src/App.js:170-204 | no key does anything without a current card, and a rating is always one of the six interaction types |
| SwipePage.KeyTable | frontend/src/App.js:180-200 | ArrowLeft/ArrowRight/ArrowUp/ArrowDown/Space/Shift rate dislike/like/strong_like/strong_dislike/watchlist/not_interested, and the hotkey table is its exact inverse |
| SwipePage.KeyForKinds | frontend/src/App.js:180-200 | exactly the six interaction types have a hotkey |
| SwipePage.UndoKey | frontend/src/App.js:174-178 | a key press undoes exactly when a card is shown and it is Ctrl or Meta with z |
| SwipePage.RateKey | frontend/src/App.js:180-200 | a key rates with an action exactly when a card is shown and it is that action's hotkey |
| SwipePage.OtherKeysIgnored | frontend/src/App.js:201-202 | any other key is ignored |
| SwipePage.SwipeInteraction | frontend/src/App.js:88-142 | no card or no user is a no-op. Otherwise the next card becomes current, or at the last card a refetch is asked for with the index unchanged. The deck's cards never change. |
| SwipePage.HandleKeyDown | frontend/src/App.js:170-204 | the key's command is taken on the state before the press. Ignore changes nothing. Undo is the deck's undo. A rating advances the deck as a swipe does. |
| Infographic.GeneratePastelColors | frontend/src/pages/Infographic.js:6-13 | exactly `n` colours, the i-th at hue i*360/n, all below 360 and strictly increasing |
| Infographic.ParseIntString | frontend/src/pages/Infographic.js:73 | `parseInt` reads back the integer a year key spells, whatever follows it, other than a digit or `x`/`X` |
| Infographic.ParseIntNaN | frontend/src/pages/Infographic.js:73-74 | a key that does not start, after white space, with a digit or a sign is NaN, so it is skipped |
| Infographic.Decade | frontend/src/pages/Infographic.js:75 | the decade is a multiple of ten at most the year and within ten of it |
| Infographic.DecadeUnique | frontend/src/pages/Infographic.js:75 | it is the only such multiple of ten |
| Infographic.DecadeTotals | frontend/src/pages/Infographic.js:72-83 | the reduce loop builds exactly the decade fold over the entries, and a missing map gives no buckets |
| Infographic.DecadeFoldLookup | frontend/src/pages/Infographic.js:76-80 | a decade has a bucket exactly when some year falls in it; its count is the number of such years and its total the sum of their scores |
| Infographic.BucketTotals | frontend/src/pages/Infographic.js:76-80 | every bucket holds its decade's count (positive) and total |
| Infographic.TimelineOfYears | frontend/src/pages/Infographic.js:85-87 | the timeline has one point per decade that some year falls in, each with that decade's count and total, in strictly ascending decade order |
| Infographic.TopEntriesRanked | frontend/src/pages/Infographic.js:105 | the chart keeps min(maxItems, size) entries of the data, best first, and no entry left out scores above a kept one |
| Infographic.BarChartNoData | frontend/src/pages/Infographic.js:105-112 | the chart shows "no data" exactly when its score map is missing or empty |
| Infographic.PieChartKeys | frontend/src/pages/Infographic.js:145-214 | nothing is returned exactly when there is no data; otherwise one key line per shown entry, in order, coloured from a palette exactly as long as the list |
| Infographic.ShownGate | frontend/src/pages/Infographic.js:338-345 | the infographic shows exactly when loading is over without error, a taste profile with counts arrived, and its total is missing or not below 25 (`undefined < 25` is false); a lower total gives the prompt with that count |

## Left out

- I/O is not modelled: NeDB persistence and errors, Express wiring, `fetch`, and the React effect and timer plumbing. Each store or HTTP error that answers 500 in the source is not modelled.
- Timestamps on interactions, `releaseYear` (derived from `Date`), and the random client user id are not modelled. The `cover`, `releaseYear` and `imdbId` fields of a snapshot are not part of `Details`, because scoring and the routes here do not read them.
- The 'Failed to undo interaction.' answer of `undoLastInteraction` is not modelled. It can only arise when the NeDB update replaces no document after `findOne` found it. With a map store that cannot happen.
- `Number(...)` conversions between string and numeric ids are not modelled, and neither is strict `===` on mixed types. All ids are integers.
- Object key order for integer-like keys is not modelled. JavaScript lists keys such as "1990" before other keys, in numeric order. The score maps keep plain insertion order. The timeline sorts its decades anyway.
- Sorting.Sort: the sort is stable, but stability is not stated.
- Concurrent `/suggest` requests for the same user race on the read-modify-write of the suggestions. A single sequential caller is modelled.
- The client sends `profileName` while `/interact` and `/suggest` read `userId`. The model takes each route's own field.
- `removeInteraction`, `deleteProfile`, `getAllProfiles` and `updateLastActive` are called by the user routes but not defined in backend/models/User.js. The `/profiles`, `/profile/:profileName` (get and delete) and `/update-last-active` routes are therefore not modelled. The removed count is a parameter of `UserRoutes.RemoveInteractionResponse`.
- Gemini model selection and the API keys are not modelled. The reply text is a parameter.
- Floating-point values are not modelled: decade averages, pie percentages, the hue as a decimal string, and all canvas drawing. Hues are exact fractions.
- Card animations and exit-animation props, the theme, and the UI components that only render are not modelled.
- `parseInt` on integers beyond 2^53 is not modelled: JavaScript loses precision there and the model reads them exactly.
- UserStore.Store.UpdateSuggestedMovies: for an unknown user the NeDB upsert inserts a document holding only `userId` and `suggestedMovies`. The model inserts a fresh profile with those suggestions instead, because a `Profile` has every field. No modelled caller reaches this case: `/suggest` runs `findOrCreateUser` first.
- ScoreMap: keys that name `Object.prototype` members are treated as ordinary keys. In JavaScript, `obj["constructor"] || 0` reads the inherited function, so `+ 1` concatenates strings, and assigning to `obj["__proto__"]` sets no key. A genre, director, writer or actor named like this is scored as any other name.
- MovieRoutes.PopularAcceptFresh: distinct and unseen record ids are stated only when resolution preserves the listing id. Without that, the source does not guarantee them, as `MovieRoutes.PopularDuplicateWhenResolutionMoves` shows.
