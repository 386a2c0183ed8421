# Truth or Troll: round selection, post tracking and leaderboards

Truth or Troll is a Reddit game. Each round shows one post, and the player
guesses whether it is a real post from a subreddit ("truth") or a generated
imitation ("troll"). This project models the game's server-side decision
logic and its two leaderboards in Dafny, and proves what that logic
promises.

- **Round selection** (`catalogue.dfy`, `round_selection.dfy`). The fixed
  catalogue has 16 truth subreddits and 16 mirrored `_fake` troll sources.
  - The next round's kind follows a catch-up rule, with a coin flip on a tie.
  - Each session keeps its used names and a truth/troll balance.
  - When either kind runs out, the pool is refreshed.
  - The picked entry is answered with its base subreddit name.
- **Post tracking** (`tracking.dfy`).
  - A global log of truth posts is pruned of entries older than five hours.
  - A suitable fresh truth post is chosen from a fetched listing, avoiding the
    posts the session has already seen.
  - The post body is truncated to 300 characters.
- **Global leaderboard** (`global_board.dfy`).
  - The board is read back from either its array shape or a legacy per-user
    object shape.
  - It is sorted by score, then by accuracy.
  - A game is recorded with keep-best semantics.
  - The module also covers rank lookup, statistics, the legacy per-answer
    counters and the per-post top-50 list.
- **Local leaderboard** (`local_board.dfy`). This is the browser's top-50
  list in an optional local storage.
  - It covers name normalisation and the accuracy of an entry.
  - It also covers the rank rule of `getUserRank`.
- **Routes** (`server.dfy`). Every modelled route but one is a method of the class
  `Server.Store`, which has one field per family of keys in the key-value
  store. The exception is `/api/leaderboard`. It reads only one post's score
  hash, which is not a field of the store, so it is the module function
  `Server.PostLeaderboard` of that hash's values. Each method:
  - states the route's answer;
  - states the whole new state;
  - keeps the invariant `Valid()` (no duplicate used names, balanced
    sessions, one leaderboard entry per player, sound counters).

Supporting modules model the JavaScript built-ins the code uses:

- `seqs.dfy`: `filter`, `findIndex`, `slice`, `Math.max`, `reduce` and `Set`
  insertion.
- `text.dfy`: `trim`, `includes`, `replace` and `toLowerCase`.
- `jsmath.dfy`: `Math.round` of a quotient, and an index drawn from
  `Math.random()`.
- `ranking.dfy`: the stable `Array.prototype.sort`, written as an insertion
  sort that is proved to give a sorted permutation of its input.

Inputs the code takes from outside are parameters of the model:

- `Math.random()` becomes a `real` roll in [0, 1).
- `Date.now()` becomes `now`.
- The Reddit listing becomes the list of posts.
- The moderator check becomes a boolean.
- Local storage becomes an `Option` of a map.

Where a description of the system and the code disagree, the model follows
the code:

- `poolRefreshed` is computed from list lengths, not from whether a refresh
  happened (`PoolRefreshedMeaning`, `OneSidedRefreshNotReported`).
- A refresh appends the full catalogue lists to the filtered (empty or
  partial) lists, rather than replacing them.
- `/api/track-truth-post` writes only the global log. `/api/recent-truth-posts`
  and the fresh-post filter read the per-session log. Only
  `/api/fetch-fresh-truth-posts` writes the per-session log, and it records the
  post's own subreddit rather than the requested one.
- The legacy object shape is normalised from the `leaderboard` key.
  `/submit-answer`'s counters live under `global_leaderboard`. These are two
  separate fields of the store.

## Model

| member | source | states |
|---|---|---|
| Catalogue.SubredditsLiteral | src/server/index.ts:469-504 | the route's catalogue equals the literal 32-entry list: the 16 truth sources, then `AskReddit_fake` ... `changemyview_fake` as troll sources, in that order |
| Catalogue.Mirrored | src/server/index.ts:469-504 | no ensures of its own, it is the truth entries for the names, then a troll entry per name with `_fake` appended; `SubredditsMirrored` and `SubredditsLiteral` state its contents, `MirroredKinds` its kinds |
| Catalogue.OfKind | src/server/index.ts:506-507 | no ensures of its own, it is `subreddits.filter(sub => sub.type === kind)`; `MirroredKinds` states what it gives on the catalogue |
| Catalogue.Available | src/server/index.ts:510-511 | no ensures of its own, it is the sources whose name is not in the used set; `AvailableEmptyIffExhausted` and `AvailableFullIffUnused` state when it is empty or full |
| Catalogue.BaseName | src/server/index.ts:573 | no ensures of its own, it is `name.replace('_fake', '')`; `BaseNamesOfSubreddits` and `SubredditTopics` state its values on the catalogue |
| Catalogue.SubredditsMirrored | src/server/index.ts:469-504 | the catalogue has 32 entries, 16 of each kind, and the i-th troll entry is the i-th truth name followed by `_fake` |
| Catalogue.MirroredKinds | src/server/index.ts:506-508 | filtering a mirrored catalogue by kind gives exactly the truth entries, or exactly the marked troll entries, in catalogue order |
| Catalogue.TruthNamesUnmarked | src/server/index.ts:471-486 | the 16 truth names contain no `_fake` |
| Catalogue.BaseNamesOfSubreddits | src/server/index.ts:573-574 | stripping the first `_fake` leaves a truth entry's name unchanged and maps each troll entry to its mirrored truth name |
| Catalogue.SubredditTopics | src/server/index.ts:573-574 | every catalogue entry's base name is one of the 16 topics; a troll entry's name is that topic followed by `_fake` |
| RoundSelection.Select | src/server/index.ts:506-583 | no ensures of its own, it is the filtering, refresh, kind choice, pick, used-set and balance update and `poolRefreshed` of the route; its properties are the rows `RefreshWhenAKindIsExhausted` to `SubredditsAlwaysPick` |
| RoundSelection.Record | src/server/index.ts:558 | no ensures of its own, it is `balance[selectedType]++`; `ChosenKindKeepsBalance` and `PlayKeepsBalance` state what it keeps |
| RoundSelection.ChooseKind | src/server/index.ts:528-539 | on a tie, truth exactly when the coin roll is below 0.5; otherwise the kind with the lower count |
| RoundSelection.ChosenKindKeepsBalance | src/server/index.ts:528-559 | bumping the chosen kind keeps the two counts non-negative and within one of each other, and raises their total by one |
| RoundSelection.PlayKeepsBalance | src/server/index.ts:523-559 | over any sequence of coin rolls a balanced session stays balanced and gains one round per call |
| RoundSelection.EvenSessionEndsLevel | src/server/index.ts:523-559 | from no rounds, an even number of picks ends with equal truth and troll counts, whatever the coin |
| RoundSelection.AvailableEmptyIffExhausted | src/server/index.ts:510-512 | an available list is empty exactly when every catalogue name of its kind is in the used set |
| RoundSelection.AvailableFullIffUnused | src/server/index.ts:510-512 | an available list has its kind's full length exactly when no name of that kind is used |
| RoundSelection.RefreshWhenAKindIsExhausted | src/server/index.ts:514-521 | the used set is cleared exactly when at least one kind is exhausted |
| RoundSelection.PickHasChosenKind | src/server/index.ts:541-559 | a picked entry is a catalogue entry of the kind the catch-up rule chose, and the balance is bumped for that kind |
| RoundSelection.PickIsRecordedOnce | src/server/index.ts:557-563 | without a refresh the pick was unused and is appended to the used list; after a refresh the list is just the pick; duplicate-freedom is kept |
| RoundSelection.PickKeepsSessionSound | src/server/index.ts:557-565 | a pick saves a duplicate-free used list and a balanced balance |
| RoundSelection.PoolRefreshedMeaning | src/server/index.ts:583 | `poolRefreshed` holds without a refresh exactly when no catalogue name was used, and after a refresh exactly when both kinds were exhausted |
| RoundSelection.FirstCallReportsRefreshed | src/server/index.ts:583 | a session's first call picks without clearing, reports `poolRefreshed`, and stores only the pick |
| RoundSelection.OneSidedRefreshNotReported | src/server/index.ts:583 | a refresh forced by one exhausted kind while the other still has unused entries reports `poolRefreshed` false |
| RoundSelection.NoEntryIffKindMissing | src/server/index.ts:541-555 | the fallback is taken exactly when the catalogue has no entry of the chosen kind |
| RoundSelection.SubredditsAlwaysPick | src/server/index.ts:545-555 | with the route's catalogue the fallback is unreachable, and the answered name is a topic, with the troll entry's name being the topic plus `_fake` |
| Server.UsedAfter | src/server/index.ts:516-562 | no ensures of its own, it is a pick stores the new used list, a refresh without a pick only deletes the session's key; `SelectionKeepsSessionsSound` states what it keeps |
| Server.BalancesAfter | src/server/index.ts:560-563 | no ensures of its own, it is only a pick stores the bumped balance; `SelectionKeepsSessionsSound` states what it keeps |
| Server.Response | src/server/index.ts:545-583 | no ensures of its own, it is the fallback answer or the pick's base name, kind, used count, catalogue size, balance, `poolRefreshed` and fake-post count; `Server.Store.BalancedQuestion` states it as the route's answer |
| Server.SelectionKeepsSessionsSound | src/server/index.ts:557-566 | persisting a selection leaves every session's used list duplicate-free and every balance balanced |
| Server.Store.BalancedQuestion | src/server/index.ts:445-585 | no session id: an error and nothing changes; otherwise the answer and the new used and balance maps are those of the selection, other keys unchanged, `Valid()` kept |
| Server.Store.TrackFakePost | src/server/index.ts:598-624 | no post id: an error and the set is unchanged; otherwise the id is added to the global set and its size is answered |
| Seqs.SetAdd | src/server/index.ts:615 | the added element is present, nothing is lost or invented, the size grows by one only for a new element, and duplicate-freedom is kept |
| Seqs.SetAddIdempotent | src/server/index.ts:615 | tracking the same id twice is the same as tracking it once |
| Seqs.DistinctSize | src/server/index.ts:861 | a duplicate-free list has as many elements as the Set it holds, so its length is the Set's `size` |
| Server.Store.FakePostStatistics | src/server/index.ts:854-869 | on a valid store: used (the size of the stored Set), total 25, available `25 - used`, and the percentage as the rounded used/25 |
| Tracking.Prune | src/server/index.ts:659-665 | the key-by-key deletion loop leaves exactly the entries stamped at or after the cutoff |
| Tracking.Fresh | src/server/index.ts:659-665 | no ensures of its own, it is the entries stamped at most five hours ago; `Tracking.Prune` is proved equal to it |
| Tracking.Track | src/server/index.ts:653-665 | no ensures of its own, it is the log with the post stamped, then pruned; `TrackKeepsNewEntry` states its contents |
| Tracking.TrackKeepsNewEntry | src/server/index.ts:653-665 | the tracked id survives with time now and its subreddit or `unknown`, other survivors are unchanged, and an older entry is dropped exactly when it is more than five hours old |
| Server.Store.TrackTruthPost | src/server/index.ts:636-674 | no post id: an error; otherwise the global log becomes the tracked and pruned log, and its size is answered |
| Server.Store.RecentTruthPosts | src/server/index.ts:686-713 | no session id: an error; otherwise the ids of the session's log |
| Tracking.Suitable | src/server/index.ts:783-788 | no ensures of its own, it is a body longer than 50 characters once trimmed, without `[removed]` or `[deleted]`; `CandidatesCharacterised` and `PickAvoidsSessionPosts` use it as the filter they characterise |
| Tracking.Candidates | src/server/index.ts:781-798 | every candidate is a fetched post that is suitable |
| Tracking.CandidatesCharacterised | src/server/index.ts:781-802 | a post is a candidate exactly when it is suitable and (while any suitable post is unused) not used by the session; there are none only when no post is suitable |
| Tracking.PickFreshPost | src/server/index.ts:777-805 | a pick is a suitable fetched post, and the number of candidates is answered |
| Tracking.PickAvoidsSessionPosts | src/server/index.ts:782-805 | the pick fails exactly when no fetched post is suitable, and it repeats a session post only when every suitable post was used |
| Tracking.TruncateBody | src/server/index.ts:832-834 | a body of at most 300 characters is kept; a longer one becomes its first 300 characters plus `...` |
| Server.Store.FetchFreshTruthPost | src/server/index.ts:726-842 | missing arguments or no pick: an error and the session log is unchanged; otherwise the session log gains the pick stamped with now and the post's subreddit, and the post is answered with its body truncated and the log's size |
| Text.TrimIsSlice | src/server/index.ts:785 | `trim` cuts out a contiguous slice of the string |
| Text.TrimDropsWhitespace | src/server/index.ts:785 | everything `trim` removes is whitespace |
| Text.TrimKeepsContentEnds | src/server/index.ts:785 | a non-empty trimmed string starts and ends with non-whitespace |
| Text.TrimEmptyIffBlank | src/shared/leaderboardService.ts:45 | a name trims to empty exactly when it is all whitespace |
| Text.ContainsIffOccurs | src/server/index.ts:786-787 | `includes` holds exactly when the pattern occurs at some index |
| Text.IndexOfFrom | src/server/index.ts:574 | the first occurrence at or after the start index, or -1 when there is none |
| Text.RemoveAppendedSuffix | src/server/index.ts:574 | removing the first `_fake` from a name with `_fake` appended gives back the name, when the name does not contain `_fake` |
| Text.ReplaceAbsent | src/server/index.ts:574 | `replace` of an absent pattern changes nothing |
| Text.LowerChar | src/shared/leaderboardService.ts:71 | an ASCII upper-case letter becomes the letter 32 code points higher; every other character is kept |
| Text.ToLower | src/shared/leaderboardService.ts:71 | lower-casing keeps the length and maps each character on its own |
| Text.LowerCharMatchesIffCaseVariant | src/shared/leaderboardService.ts:71 | two characters lower-case to the same character exactly when they are equal or the two cases of one ASCII letter |
| Text.ToLowerEqualIffEqualIgnoringCase | src/shared/leaderboardService.ts:71 | two names compare equal after lower-casing exactly when they differ at most in the case of ASCII letters |
| Text.ToLowerIdempotent | src/shared/leaderboardService.ts:71 | lower-casing a lower-cased name changes nothing |
| JsMath.RoundDiv | src/server/index.ts:39 | `Math.round(p / q)` for q > 0 is the integer r with `r - 1/2 <= p/q < r + 1/2` |
| JsMath.RoundQuotient | src/server/index.ts:66 | the same bounds for a negative divisor |
| JsMath.PickIndex | src/server/index.ts:543 | `Math.floor(Math.random() * n)` is a valid index into a list of n |
| Ranking.SortBy | src/server/index.ts:49-52 | no ensures of its own, it is a stable insertion sort by a rank key, best first; `SortByPermutes`, `SortBySorted`, `SortByAppend` and `SortByUnique` state its properties |
| Ranking.SortByPermutes | src/server/index.ts:49-52 | the stable sort returns a permutation of its input, ordered best first |
| Ranking.SortBySorted | src/server/index.ts:91-95 | sorting an already sorted list changes nothing |
| Ranking.SortByAppend | src/shared/leaderboardService.ts:52-56 | sorting a sorted list with one element pushed inserts it behind every element it does not outrank |
| Ranking.SortByUnique | src/server/index.ts:91-95 | sorting keeps the usernames unique |
| GlobalBoard.FromLegacy | src/server/index.ts:36-47 | a legacy record's non-numbers count as 0, games played are its plays, accuracy is the rounded score/plays percentage (0 without plays), stamped now |
| GlobalBoard.LegacyAccuracyIsPercentage | src/server/index.ts:37-39 | with `0 <= score <= plays` the legacy accuracy is between 0 and 100 |
| GlobalBoard.Normalise | src/server/index.ts:34-47 | one entry per legacy record, in property order |
| GlobalBoard.Load | src/server/index.ts:28-57 | no ensures of its own, it is the stored array, or the normalised legacy object, sorted by score then accuracy; `LoadIsSortedPermutation`, `LoadKeepsOneEntryPerPlayer` and `LoadSavedBoard` state its properties |
| GlobalBoard.LoadIsSortedPermutation | src/server/index.ts:28-52 | the loaded board holds exactly the stored entries, sorted by score then accuracy |
| GlobalBoard.LegacyBoardHasOneEntryPerPlayer | src/server/index.ts:34-47 | a normalised legacy object has one entry per player |
| GlobalBoard.LoadKeepsOneEntryPerPlayer | src/server/index.ts:28-52 | loading keeps one entry per player |
| GlobalBoard.LoadSavedBoard | src/server/index.ts:91-98 | a board saved sorted reads back unchanged |
| GlobalBoard.Replay | src/server/index.ts:71-78 | score and accuracy are replaced only by a strictly higher score; games played rise by one; stamped now |
| GlobalBoard.Recorded | src/server/index.ts:69-88 | no ensures of its own, it is the player's first entry replayed, or a new entry with one game pushed; `RecordedKeepsOneEntryPerPlayer` states its properties |
| GlobalBoard.ApplyGame | src/server/index.ts:60-98 | no ensures of its own, it is the rounded accuracy, the recorded game and the sort; `ApplyGameKeepsBest`, `SubmittedPlayerIsRanked` and `SavedGameReadsBack` state its properties |
| GlobalBoard.ApplyGameKeepsBest | src/server/index.ts:60-98 | the saved board is sorted and is the old board with the player's entry replaced (known player) or added with one game (new player) |
| GlobalBoard.RecordedKeepsOneEntryPerPlayer | src/server/index.ts:69-88 | recording a game keeps one entry per player and the board holds the player's new entry |
| GlobalBoard.RankOf | src/server/index.ts:106-115 | the 1-based position of the player's first entry with that entry, or -1 with none exactly when absent; the player count |
| GlobalBoard.RankFindsUniqueEntry | src/server/index.ts:109-113 | on a board with one entry per player, the rank lookup finds that player's entry |
| GlobalBoard.SubmittedPlayerIsRanked | src/server/index.ts:327-331 | after a game, the rank lookup finds the player's new entry |
| GlobalBoard.SavedGameReadsBack | src/server/index.ts:327-331 | the saved board keeps one entry per player and reads back unchanged |
| GlobalBoard.StatsOf | src/server/index.ts:133-150 | all zero on an empty board; otherwise the player count, the sum of games, the mean score rounded to the nearest integer, and the top score as the maximum score |
| GlobalBoard.AverageAtMostTop | src/server/index.ts:141-144 | the rounded average score never exceeds the top score |
| GlobalBoard.TopScoreLeads | src/server/index.ts:144 | on a loaded board the top score is the first entry's score |
| Server.Store.GlobalLeaderboard | src/server/index.ts:349-393 | the loaded board and its statistics |
| Server.Store.SubmitGameScore | src/server/index.ts:315-338 | a missing field: an error and the board unchanged; otherwise the board saved in array shape is the updated one, and the answer is the player's rank on it |
| Server.Store.ResetLeaderboard | src/server/index.ts:881-924 | a non-moderator is refused and nothing changes; a moderator's reset stores an empty board |
| GlobalBoard.Answer | src/server/index.ts:284-296 | the user's counter (0/0 when new) gains a play, and a point when correct; other users unchanged |
| GlobalBoard.AnswerKeepsCountersSound | src/server/index.ts:287-296 | counters with `0 <= score <= plays` stay so |
| Server.Store.SubmitAnswer | src/server/index.ts:271-304 | no username: an error; otherwise the counters are updated and the user's counter is answered |
| GlobalBoard.Parsed | src/server/index.ts:983-991 | each parsed record appears exactly as often as it was stored; values that did not parse are dropped |
| GlobalBoard.PrefixOfSortedIsBest | src/server/index.ts:992-993 | any prefix of the score-sorted records is drawn from them, best first, and nothing cut off scores above a kept record |
| GlobalBoard.TopRecords | src/server/index.ts:983-993 | min(n, 50) of the n parsed records, drawn from them (as a sub-multiset), by score descending, and no record left out scores above a kept one |
| GlobalBoard.TopScores | src/server/index.ts:983-997 | the best min(n, 50) parsed records as `TopRecords` states, by score descending, ranked 1, 2, ... |
| Server.PostLeaderboard | src/server/index.ts:966-1002 | no post id: an error, and only then; otherwise the best min(n, 50) parsed records, by score descending, ranked from 1, none left out scoring above a kept one |
| LocalBoard.Loaded | src/shared/leaderboardService.ts:23-37 | no ensures of its own, it is nothing without storage or a stored list, otherwise the stored list sorted by score; `LoadedIsSortedPermutation` states its properties |
| LocalBoard.LoadedIsSortedPermutation | src/shared/leaderboardService.ts:23-37 | empty without storage or without a stored list; otherwise exactly the stored entries, sorted by score descending |
| LocalBoard.NewEntry | src/shared/leaderboardService.ts:39-49 | the trimmed name or `Anonymous`, the score, stamped now, accuracy the half-up rounded score/(rounds*100) percentage, for a positive or a negative round count |
| LocalBoard.AccuracyIsPercentage | src/shared/leaderboardService.ts:42 | a score within 0 to 100 per round gives an accuracy between 0 and 100 |
| LocalBoard.Added | src/shared/leaderboardService.ts:51-57 | the stored list is sorted, has length min(old + 1, 50), and holds only old entries and the new one |
| LocalBoard.AddedToSortedBoard | src/shared/leaderboardService.ts:52-57 | on a sorted list the new entry is inserted behind every entry with a score at least its own, cut to 50; it is kept exactly when there is room or it beats the 50th score |
| LocalBoard.TieWithLastIsDropped | src/shared/leaderboardService.ts:52-57 | a full list keeps its 50 entries when the new score does not beat the 50th |
| LocalBoard.AfterAdd | src/shared/leaderboardService.ts:59-62 | without storage nothing is written; lists under other keys are untouched |
| LocalBoard.AddScoreThenLoad | src/shared/leaderboardService.ts:39-62 | after an add, loading gives exactly the stored list, one longer up to 50 |
| LocalBoard.Cleared | src/shared/leaderboardService.ts:83-91 | after a clear the board loads empty; without storage nothing changes; other keys are untouched |
| LocalBoard.SameUser | src/shared/leaderboardService.ts:71 | no ensures of its own, it is the lower-cased names are equal; `Text.ToLowerEqualIffEqualIgnoringCase` states that this is equality up to ASCII letter case |
| LocalBoard.UserScores | src/shared/leaderboardService.ts:70-72 | exactly the scores of the user's entries, compared case-insensitively |
| LocalBoard.UserRank | src/shared/leaderboardService.ts:68-81 | -1 exactly when the user has no entry; otherwise 1 + the index of the first entry of any user whose score equals the user's best, never behind the user's own best entry |
| LocalBoard.RankMayPointToAnotherUser | src/shared/leaderboardService.ts:77-78 | a concrete board where the rank returned is another user's entry with the same score |
| LocalBoard.LocalLeaderboard.constructor | src/shared/leaderboardService.ts:11-20 | the leaderboard starts on the given storage, or none where there is no local storage |
| LocalBoard.LocalLeaderboard.GetLeaderboard | src/shared/leaderboardService.ts:23-37 | the loaded list of the current storage |
| LocalBoard.LocalLeaderboard.AddScore | src/shared/leaderboardService.ts:39-66 | the storage becomes the storage after the add |
| LocalBoard.LocalLeaderboard.GetUserRank | src/shared/leaderboardService.ts:68-81 | the rank by the rule above, on the current storage |
| LocalBoard.LocalLeaderboard.ClearLeaderboard | src/shared/leaderboardService.ts:83-92 | the storage becomes the cleared storage |

## Left out

- HTTP and hosting: Express routing, request parsing, status codes and the
  500 answers of the `try`/`catch` blocks. A missing or empty string field is
  modelled as `""`, which is falsy in JavaScript. A missing number field is
  modelled as `None`.
- The key-value store is modelled as the fields of `Server.Store`. JSON
  serialisation and parse errors are not modelled, and neither are the TTLs
  set by `redis.expire`.
- The Reddit fetch loop over four listing URLs (src/server/index.ts:746-779).
  The model receives the first non-empty listing as a parameter, `[]` when
  every fetch failed. The strategy index in the answer is not modelled.
- The moderator check through the Reddit API (src/server/index.ts:159-189):
  its result is the `isModerator` parameter.
- Concurrency: the `Promise.all` writes and lost updates between concurrent
  requests. Calls are modelled as sequential.
- Floating point: `Math.round` of a division is modelled exactly, with a half
  rounded up. NaN and infinities are not modelled.
- Server.Store.SubmitGameScore: requires `totalQuestions` not to be 0 when
  every other field is present. On that request the code divides by zero and
  stores a non-finite accuracy, which is outside the integer model. With a
  field missing, a zero total is answered with the missing-fields error,
  as in the code.
- GlobalBoard.ApplyGame: requires `totalQuestions != 0`, for the same reason.
- LocalBoard.NewEntry: requires `totalRounds != 0`. In the code, 0 rounds give
  a non-finite accuracy.
- LocalBoard.LocalLeaderboard.AddScore: requires `totalRounds != 0`, for the
  same reason. The parameter's default of 10 rounds is not modelled: a caller
  passes the count explicitly.
- GlobalBoard.TopRecords: among records with the same score, the contract
  does not say which are kept at the cut or in what order. The code's stable
  sort keeps them in hash order; the model's sort does the same, but no
  ensures states it.
- Server.Store.RecentTruthPosts: answers the set of ids, not the array in
  object key order, because the model's logs are maps.
- Object property order in general: legacy records arrive as a sequence in
  an order given to the model. JavaScript's reordering of integer-like keys is
  not modelled.
- Property names inherited from `Object.prototype`, such as a username or a
  post id of `constructor`, are not modelled.
- Strings are sequences of Unicode scalar values, not UTF-16 code units. So
  lengths and the 300-character cut count code points. `toLowerCase` is
  modelled only for ASCII letters.
- A single `now` stands for every `Date.now()` call within one request.
- The JSON field types of stored entries are not modelled. The model assumes
  numbers where the code does arithmetic or compares; comparators on
  non-numbers are not modelled.
- The routes `/is-moderator` and `/api/is-moderator`
  (src/server/index.ts:396-442), and `/internal/on-app-install` and
  `/internal/menu/post-create` (src/server/index.ts:1013-1044), are not
  modelled. They only query Reddit or create the game post.
- `/api/save-score`, `/api/init`, `/increment` and `/decrement` are store
  plumbing outside the modelled core. Only `/api/save-score`'s output (the
  per-post score hash) enters, as the values given to `Server.PostLeaderboard`.
- The generated fake posts and fallback posts of `kiroService.ts` are not part
  of this model. Neither are the client components, nor the `addScore` copy
  in the client.
