# Green-shopping experiment: a Dafny model

This project models the logic of a browser-based "green shopping" psychology
experiment and its small Express backend, and proves properties of it.
Participants shop among 16 product cards while background music plays; the
group (nostalgic or neutral music) is assigned round robin by the server or
read from the participant's id. The modelled parts are:

- **The experiment pages' audio manager** (`public/experiment/audio.js`,
  module `ExperimentAudio`).
  - The three-tier music manifest: server answer, static file, built-in default.
  - The first-track pick.
  - The candidate URL builder: 1 candidate for an absolute URL, 21 for a relative path.
  - The candidate ladder: direct playback first, then a fetch-to-blob fallback.
  - The player bookkeeping: every older player is stopped and unloaded.
- **The bundled application's audio manager** (`src/js/audio.js`, module `AppAudio`).
  - A fixed track list and a random pick.
  - Up to three attempts to play one track.
  - An `onend` handler that marks the music as interrupted.
- **The experiment shopping page** (`public/experiment/shopping-task-entry.js`,
  module `ExperimentShop`).
  - The group chosen from the subject id's digit parity, or from storage, or at random.
  - The catalogue, the category filter and the price sorts.
  - The category list, the cart toggle and the drawer total.
  - `selected_categories`.
  - The run-once music guards.
  - The countdown, in module `Countdown`.
- **The application shopping page** (`src/js/shopping-task-entry.js`, module
  `AppShop`).
  - The stored group.
  - The tagged catalogue, the cart lines and the music badge.
- **The server** (`server.js`, module `Server`).
  - Round-robin group assignment and the participant id.
  - The `.mp3` manifest.
  - The Basic-authentication guard and which routes it covers.
  - The record store: POST record, append, delete by id, clear.
  - The summary statistics and the item-level CSV rows.

Shared modules:

| module | what it holds |
|---|---|
| `Text` | `split`/`join`, `replace`, case-insensitive prefix tests, digit parsing and padding |
| `Json` | JSON values, JavaScript truthiness, `\|\|` and `&&` |
| `Catalog` | base items expanded into classic/eco cards, lookup by key, order-keeping de-duplication |
| `Cart` | the `toggleCart` splice-or-push |

Modelling choices:

- Inputs from outside the program are parameters:
  - the clock and the random roll;
  - `localStorage`;
  - request headers and directory listings;
  - the base64 decoder, `encodeURI` and `encodeURIComponent`.
- The playback engine and `fetch` are oracles indexed by attempt:
  - `nat -> Trial` in `ExperimentAudio`;
  - `nat -> Event` in `AppAudio`.
- Prices are integer fen (hundredths of a yuan).
- The source's stateful objects are classes whose methods state their whole new state:
  - the two audio managers;
  - the page state and the countdown;
  - the assignment file and the data file.
- Loops in the source are `while` loops with invariants, each proved against a specification function:
  - the candidate ladder;
  - the application's retry loop;
  - the drawer total and the cart rendering;
  - the statistics;
  - the nested export loop.

Behaviour of the code that the model keeps as it is:

- `playGroupForDuration` ignores its duration and plays once: it loads the
  manifest and calls `playGroupMusic`
  (`ExperimentAudio.AudioManager.PlayGroupForDuration`).
- The candidate list keeps duplicates; raw forms 0 and 3 are always equal
  (`ExperimentAudio.RelativeCandidates`).
- An empty group triggers a manifest load (`needLoad`), and an empty server
  list is then taken as it is, so the result is `'no_track'`
  (`Server.ServerManifestTaken`).
- The experiment page's `retryCount` counts only blob load errors and does
  not bound the ladder, which walks every candidate until one does not fail
  (`ExperimentAudio.AudioManager.RunLadder`).

## Model

| member | source | states |
|---|---|---|
| Text.ReplaceFirst | public/experiment/audio.js:92 | `replace` with a string pattern changes only the first occurrence; without one the text is unchanged |
| Text.DropLeadingSlash | public/experiment/audio.js:91 | removes exactly one leading `/`, otherwise returns the text unchanged |
| Text.Split | public/experiment/audio.js:94 | `split` with a one-character separator always yields at least one piece |
| Text.SplitPiecesFree | server.js:64 | no piece of a split contains the separator |
| Text.SplitCount | server.js:64 | a split has one piece more than there are separators |
| Text.JoinSplit | public/experiment/audio.js:94 | joining the pieces of a split gives back the text |
| Text.SplitJoin | public/experiment/audio.js:94 | splitting a join of separator-free pieces gives back the pieces |
| Text.KeepDigits | public/experiment/shopping-task-entry.js:13 | `replace(/\D/g, '')` yields only digits and never more characters than the id; which ones is stated by `KeepDigitsOne` and `KeepDigitsAppend` |
| Text.KeepDigitsOne | public/experiment/shopping-task-entry.js:13 | one character is kept exactly when it is a digit |
| Text.KeepDigitsAppend | public/experiment/shopping-task-entry.js:13 | keeping the digits distributes over concatenation, so the digits keep their order |
| Text.KeepDigitsLast | public/experiment/shopping-task-entry.js:13-15 | the last kept character is the last digit of the id |
| Text.KeepDigitsEmpty | public/experiment/shopping-task-entry.js:13-14 | nothing is kept exactly when the id has no digit |
| Text.ParseDigits | public/experiment/shopping-task-entry.js:13-14 | `parseInt` of a digit string is `NaN` (None) exactly for the empty string, else its value |
| Text.NatToStringValue | server.js:48 | reading back the digits `String(n)` writes gives `n` |
| Text.NatToString | server.js:48 | `String(n)` is a non-empty digit string |
| Text.Pad2Value | server.js:49-53 | `padStart(2, '0')` of a number below 100 is two digits that read back as the number |
| Text.DigitsParity | public/experiment/shopping-task-entry.js:15 | the parity of a digit string's value is the parity of its last digit |
| Json.Or | server.js:194 | `a \|\| b` is truthy iff one of them is, and is `a` when `a` is truthy |
| Json.And | server.js:194 | `a && b` is truthy iff both are, and is `a` when `a` is falsy |
| Catalog.ExpandShape | public/experiment/shopping-task-entry.js:124-127 | `flatMap` gives two cards per base item, classic at `2i` and eco at `2i+1` |
| Catalog.Expand | public/experiment/shopping-task-entry.js:124-127 | the `flatMap` that builds the cards; its shape is stated by `ExpandShape` and `ExpandFrom` |
| Catalog.ExpandFrom | public/experiment/shopping-task-entry.js:124-127 | card `k` is base item `k / 2`, classic with the classic tag at even `k`, eco with the eco tag at odd `k` |
| Catalog.CardKeysDiffer | public/experiment/shopping-task-entry.js:125-126 | cards of different base ids, or of different variants, have different keys |
| Catalog.ExpandKeysDistinct | public/experiment/shopping-task-entry.js:124-127 | distinct base ids give 16 distinct card keys |
| Catalog.Find | public/experiment/shopping-task-entry.js:202 | `find` returns the first card with the key, or none when no card has it |
| Catalog.FindUnique | public/experiment/shopping-task-entry.js:202 | with distinct keys, `find` of card `k`'s key is card `k` |
| Catalog.FindItem | public/experiment/shopping-task-entry.js:175 | `BASE_ITEMS.find` by id: the first match, or none |
| Catalog.FindItemUnique | public/experiment/shopping-task-entry.js:175 | with distinct ids, `find` of base item `k`'s id is base item `k` |
| Catalog.ExpandPrice | public/experiment/shopping-task-entry.js:174-177 | `baseOf(card).price` is the price of the card's own base item |
| Catalog.Lookup | src/js/shopping-task-entry.js:95-97 | the cards of the selected keys that name one, never more than the keys |
| Catalog.LookupAppend | public/experiment/shopping-task-entry.js:273-275 | lookup keeps selection order: it distributes over concatenation |
| Catalog.LookupMembers | public/experiment/shopping-task-entry.js:273-275 | a card is listed iff some selected key finds it |
| Catalog.LookupLength | src/js/shopping-task-entry.js:95-97 | one entry per known key; unknown keys give none |
| Catalog.Dedup | public/experiment/shopping-task-entry.js:307 | `Array.from(new Set(s))` has no duplicates and the same members as `s` |
| Cart.FirstIndex | public/experiment/shopping-task-entry.js:180 | `indexOf`: the first index holding the key, none iff the key is absent |
| Cart.Toggled | public/experiment/shopping-task-entry.js:179-188 | the selection after one toggle; its effect is stated by `ToggledCounts`, `ToggledShape` and `ToggleFlips` |
| Cart.ToggledCounts | public/experiment/shopping-task-entry.js:179-188 | toggling removes one copy of a present key or appends an absent one (as multisets) |
| Cart.ToggledShape | public/experiment/shopping-task-entry.js:181-185 | `push` at the end, or `splice` of exactly the first occurrence |
| Cart.ToggleFlips | public/experiment/shopping-task-entry.js:179-188 | the toggled key's membership flips and no other key's membership changes |
| Cart.ToggleKeepsNoDups | public/experiment/shopping-task-entry.js:179-188 | a duplicate-free cart stays duplicate-free |
| Cart.ToggleTwiceRestores | public/experiment/shopping-task-entry.js:179-188 | toggling an absent key twice restores the selection exactly |
| Countdown.JsRem | public/experiment/shopping-task-entry.js:235 | JavaScript `%` agrees with `%` for non-negative operands and stays strictly within `(-b, b)` |
| Countdown.Clock | public/experiment/shopping-task-entry.js:233-235 | the `mm:ss` text of the remaining seconds; `ClockRoundTrip` and `ClockFields` state what it holds |
| Countdown.Label | public/experiment/shopping-task-entry.js:235 | `剩余时间：` followed by the clock text |
| Countdown.ClockRoundTrip | public/experiment/shopping-task-entry.js:233-236 | below 100 minutes the `mm:ss` label is five characters and reads back as the remaining seconds |
| Countdown.ClockFields | public/experiment/shopping-task-entry.js:234-235 | the minutes field is at least two digits and the seconds field exactly two, reading back as the quotient and remainder by 60 |
| Countdown.Timer.Start | public/experiment/shopping-task-entry.js:230-245 | the first tick runs before `t` exists: with `seconds <= 0` it throws; otherwise the interval is set with `seconds - 1` remaining |
| Countdown.Timer.Tick | src/js/shopping-task-entry.js:121-130 | writes the label of the current time; at `<= 0` clears the interval and clicks finish exactly once; counts down |
| ExperimentAudio.ManifestTiers | public/experiment/audio.js:52-67 | a usable API answer wins; the static file counts only when the API gave nothing; otherwise the OSS default; the result always has a group key |
| ExperimentAudio.ChooseManifest | public/experiment/audio.js:52-67 | the tier `loadMusicList` keeps; which one is stated by `ManifestTiers` |
| ExperimentAudio.GetLoopTrack | public/experiment/audio.js:70-75 | the first track of the group, none iff the group is missing or empty |
| ExperimentAudio.NeedLoadIffNoTrack | public/experiment/audio.js:185 | the manifest is loaded again exactly when the group has no track |
| ExperimentAudio.DefaultHasTracks | public/experiment/audio.js:59-66 | the built-in default has a track for both groups |
| ExperimentAudio.RawForms | public/experiment/audio.js:95-103 | seven raw forms |
| ExperimentAudio.Candidates | public/experiment/audio.js:86-109 | the candidate URLs; `AbsoluteCandidates`, `RelativeCandidates` and `CandidatesNonEmpty` state them |
| ExperimentAudio.SegmentEncodeSegments | public/experiment/audio.js:94 | with an encoder that writes no `/`, `segmentEncode` keeps the segment count and the first segment and encodes the others |
| ExperimentAudio.CandidatesNonEmpty | public/experiment/audio.js:86-109 | there is always at least one candidate |
| ExperimentAudio.AbsoluteCandidates | public/experiment/audio.js:88-89 | an `http(s)://` track is its own and only candidate |
| ExperimentAudio.RelativeCandidates | public/experiment/audio.js:90-108 | any other track gives 21 candidates: raw, `encodeURI`d and segment-encoded; [1] is the track, [4] the alias, [0] and [3] coincide |
| ExperimentAudio.AliasOfMusicPath | public/experiment/audio.js:92 | a track starting with `/music/` is aliased to `/assets/audio/` followed by the rest of its path |
| ExperimentAudio.AliasExample | public/experiment/audio.js:92 | `/music/neutral/x.mp3` aliases to `/assets/audio/neutral/x.mp3` |
| ExperimentAudio.NeutralExampleCandidates | public/experiment/audio.js:90-108 | the example track's candidates contain the track, the alias and the `encodeURI`d track |
| ExperimentAudio.Ladder | public/experiment/audio.js:111-182 | where `tryNext(idx)` comes to rest; stated by `LadderExhaustedIff`, `LadderFirstLive`, `LadderStartedAt` and `LadderBounded` |
| ExperimentAudio.TrialEndAt | public/experiment/audio.js:116-178 | where a candidate comes to rest does not depend on its position in the list |
| ExperimentAudio.LadderExhaustedIff | public/experiment/audio.js:111-115 | `tryNext` rejects with `'music_error'` iff every candidate from `idx` on fails |
| ExperimentAudio.LadderFirstLive | public/experiment/audio.js:111-182 | otherwise it comes to rest on the first candidate that does not fail |
| ExperimentAudio.LadderStartedAt | public/experiment/audio.js:111-182 | a ladder that starts does so at a candidate that does not fail, through that candidate's own path |
| ExperimentAudio.LadderBounded | public/experiment/audio.js:111-116 | at most the listed candidates are tried and the resting index lies in the list |
| ExperimentAudio.BlobFailuresAtMost | public/experiment/audio.js:143-147 | `retryCount` never exceeds the number of candidates tried |
| ExperimentAudio.PlayOutcomeCases | public/experiment/audio.js:77-191 | `'no_track'` iff the (reloaded) manifest has no track; `'music_error'` iff all candidates fail; a resolution reports a candidate URL and the start time |
| ExperimentAudio.PlayOutcome | public/experiment/audio.js:77-191 | how the promise settles given the manifest before the call; stated by `PlayOutcomeCases` |
| ExperimentAudio.AbsoluteTrackPlaysItself | public/experiment/audio.js:86-89 | an absolute track is played from itself or not at all |
| ExperimentAudio.BlobFallbackReportsOriginal | public/experiment/audio.js:120-141 | when the first direct load fails and its blob plays, the promise resolves with the original candidate URL, not the object URL |
| ExperimentAudio.OnePlayerLive | public/experiment/audio.js:128-159 | every player but the last is stopped and unloaded |
| ExperimentAudio.AllUnloadedMeans | public/experiment/audio.js:128-159 | the recursive reading of "all unloaded" is the pointwise one |
| ExperimentAudio.OnePlayerLiveMeans | public/experiment/audio.js:128-159 | `OnePlayerLive` holds iff every player before the last is unloaded and the last is not |
| ExperimentAudio.StepSources | public/experiment/audio.js:116-178 | one candidate builds its stream player, then a blob player exactly when the direct load errs and the fetch answers `ok` |
| ExperimentAudio.PlayersDetermined | public/experiment/audio.js:128-159 | with one live player, the sources built and the last player's status fix the whole list of players |
| ExperimentAudio.SourcesReplace | public/experiment/audio.js:158-159 | replacing the current player keeps every earlier source and adds the new one |
| ExperimentAudio.SettledSources | public/experiment/audio.js:111-182 | the sources of the players the ladder builds before it settles: one build per candidate tried |
| ExperimentAudio.StepLastSource | public/experiment/audio.js:135-171 | the last player a starting candidate builds is the one that played: stream for a direct play, blob for a blob play |
| ExperimentAudio.LadderLastSource | public/experiment/audio.js:111-182 | after a start, the live player is the one built for the candidate the ladder settled on, by the path that played |
| ExperimentAudio.LadderStreams | public/experiment/audio.js:116-159 | each tried candidate builds its stream player, and none builds more than two players |
| ExperimentAudio.AudioManager.constructor | public/experiment/audio.js:7-15 | no player, no track, retry count 0, nothing interrupted; `MUSIC_PATHS` starts with empty groups |
| ExperimentAudio.AudioManager.LoadMusicList | public/experiment/audio.js:39-68 | `MUSIC_PATHS` becomes the chosen tier |
| ExperimentAudio.AudioManager.ReplacePlayer | public/experiment/audio.js:158-159 | the current player is stopped and unloaded before a new loaded one is built from the source; the sources gain exactly that source; at most one player is live |
| ExperimentAudio.AudioManager.Started | public/experiment/audio.js:165-171 | `onplay` clears `interrupted`, calls `onMusicStarted` once with the candidate URL, resolves with it |
| ExperimentAudio.AudioManager.TryCandidate | public/experiment/audio.js:116-178 | one candidate: it builds the players `StepSources` names and moves on exactly when direct and blob paths both fail; only a blob load error counts a retry; a start resolves with the candidate URL and adds one notice; a hang stays pending |
| ExperimentAudio.AudioManager.TryBlob | public/experiment/audio.js:120-156 | the blob path: no player after a failed fetch, one blob player after an `ok` one; a blob load error counts a retry and moves on; a blob play resolves with the candidate URL |
| ExperimentAudio.AudioManager.PrepareTrack | public/experiment/audio.js:185-190 | load only when `needLoad`, then `getLoopTrack` |
| ExperimentAudio.AudioManager.PlayGroupMusic | public/experiment/audio.js:77-191 | the state `PlayedGroup` describes: the outcome is `PlayOutcome` of the manifest before the call; with no track nothing else changes; otherwise track, start time, blob failures as `retryCount`, the players built (`SettledSources`), the last player loaded, and one notice iff it resolves |
| ExperimentAudio.AudioManager.PlayedGroup | public/experiment/audio.js:77-191 | the whole state `playGroupMusic` leaves, as listed for `PlayGroupMusic` |
| ExperimentAudio.AudioManager.RunLadder | public/experiment/audio.js:111-182 | the loop settles as `Ladder` does, builds exactly the `SettledSources` players, leaves the last one loaded, counts blob load errors and adds a notice only on a start |
| ExperimentAudio.AudioManager.PlayGroupForDuration | public/experiment/audio.js:195-198 | loads unconditionally, then plays once from the loaded manifest, leaving the state `PlayedGroup` describes; the duration is unused |
| ExperimentAudio.AudioManager.Stop | public/experiment/audio.js:206-214 | stops the current player; nothing is published as interrupted, since this file sets no `onend` |
| AppAudio.GetRandomTrack | src/js/audio.js:47-52 | the pick is a track of the group, none iff the group is missing or empty |
| AppAudio.FloorIndex | src/js/audio.js:50 | `Math.floor(Math.random() * n)` is a valid index |
| AppAudio.RandomTrackFixed | src/js/audio.js:5-12 | with one track per group the pick is fixed; an unknown group has none |
| AppAudio.GaveUpIff | src/js/audio.js:70-76 | the retries give up iff all `maxRetry` attempts fail to load |
| AppAudio.AttemptsSettle | src/js/audio.js:61-84 | attempts before the last all failed to load, and the last lies within the bound |
| AppAudio.Attempts | src/js/audio.js:61-84 | where the retries come to rest; stated by `GaveUpIff` and `AttemptsSettle` |
| AppAudio.AppOutcomeCases | src/js/audio.js:54-87 | `'music_error'` iff attempts 0, 1 and 2 all fail to load; a resolution reports the picked track |
| AppAudio.PlayOutcome | src/js/audio.js:54-87 | how the promise settles; stated by `AppOutcomeCases` |
| AppAudio.AudioManager.constructor | src/js/audio.js:15-23 | no player, no track, retry count 0, `maxRetry` 3, not interrupted |
| AppAudio.AudioManager.PlayGroupMusic | src/js/audio.js:54-87 | outcome as `PlayOutcome`; one new player per attempt (none are stopped), retry count = load errors, track and start time recorded, `interrupted` cleared only on resolution; with no track nothing changes |
| AppAudio.AudioManager.Retry | src/js/audio.js:61-84 | the attempts at one track settle as `Attempts` does: one new player per attempt, `retryCount` the load errors, `'music_error'` after three, `interrupted` cleared only on resolution |
| AppAudio.AudioManager.TrackEnded | src/js/audio.js:78-81 | `onend` sets `interrupted` and its time |
| AppAudio.AudioManager.Stop | src/js/audio.js:95-103 | publishes the interruption when there is a player and it was interrupted, else nothing changes |
| ExperimentShop.BaseIdsDistinct | public/experiment/shopping-task-entry.js:84-121 | the eight base ids are distinct |
| ExperimentShop.ProductsShape | public/experiment/shopping-task-entry.js:124-127 | 16 cards with distinct keys, `id-classic` then `id-eco` per base item |
| ExperimentShop.SubjectParity | public/experiment/shopping-task-entry.js:11-18 | an id with digits decides by its last digit's parity; an id without digits decides nothing |
| ExperimentShop.GroupFromSubject | public/experiment/shopping-task-entry.js:11-18 | the group the subject id decides, if any; stated by `SubjectParity` |
| ExperimentShop.KeepDigitsP00 | public/experiment/shopping-task-entry.js:13 | an id `P00d` keeps `00d` |
| ExperimentShop.ChooseGroupOrder | public/experiment/shopping-task-entry.js:9-26 | the subject id overrides storage and the roll; a stored group is kept and not rewritten; otherwise the group is written |
| ExperimentShop.ChooseGroup | public/experiment/shopping-task-entry.js:9-26 | the group and whether it is written to storage; stated by `ChooseGroupOrder` |
| ExperimentShop.SubjectExamples | public/experiment/shopping-task-entry.js:13-15 | P001 gives nostalgia, P002 neutral |
| ExperimentShop.FilterCategory | public/experiment/shopping-task-entry.js:143 | `'全部'` keeps every card; otherwise exactly the cards of the category, in order |
| ExperimentShop.FilterCategoryAppend | public/experiment/shopping-task-entry.js:143 | the filter distributes over concatenation, so it keeps catalogue order |
| ExperimentShop.SortedPairs | public/experiment/shopping-task-entry.js:144-145 | a list sorted by adjacent pairs is ordered between any two positions |
| ExperimentShop.Insert | public/experiment/shopping-task-entry.js:144-145 | inserting into a sorted list keeps it sorted and adds exactly the new card |
| ExperimentShop.SortBy | public/experiment/shopping-task-entry.js:144-145 | the sort is a permutation and is sorted by the key |
| ExperimentShop.VisibleSpec | public/experiment/shopping-task-entry.js:142-145 | the listed cards are exactly the category's cards; `price-asc` rising, `price-desc` falling by base price, other sorts keep catalogue order |
| ExperimentShop.Visible | public/experiment/shopping-task-entry.js:142-145 | the listed cards; stated by `VisibleSpec` |
| ExperimentShop.CategoryList | public/experiment/shopping-task-entry.js:307 | `'全部'` first, then each category once, exactly the base items' categories |
| ExperimentShop.DedupSnocNew | public/experiment/shopping-task-entry.js:307 | a `Set` appends a value it has not seen |
| ExperimentShop.DedupSnocOld | public/experiment/shopping-task-entry.js:307 | a `Set` ignores a value it has seen |
| ExperimentShop.CategoryListValue | public/experiment/shopping-task-entry.js:307 | the list is 全部, 食品, 纺织, 个护, 日用 |
| ExperimentShop.CategoriesInSpec | public/experiment/shopping-task-entry.js:273-276 | over any catalogue: no category twice, and a category is listed iff some selected key names a card of it |
| ExperimentShop.SelectedCategoriesSpec | public/experiment/shopping-task-entry.js:273-276 | each category once, and exactly the categories of selected keys that name a card |
| ExperimentShop.TotalIsPriceSum | public/experiment/shopping-task-entry.js:200-206 | the drawer total is the sum of the base prices of the cards the selection names |
| ExperimentShop.Total | public/experiment/shopping-task-entry.js:200-206 | the drawer total; stated by `TotalIsPriceSum`, `TotalAppend` and `ToggleTotal` |
| ExperimentShop.TotalAppend | public/experiment/shopping-task-entry.js:201-206 | the total of a concatenation is the sum of the totals |
| ExperimentShop.ToggleTotal | public/experiment/shopping-task-entry.js:179-206 | adding a key adds its card's price; removing it takes the price off |
| ExperimentShop.CardPrice | public/experiment/shopping-task-entry.js:174-177 | every card costs its base item's price |
| ExperimentShop.ShopState.constructor | public/experiment/shopping-task-entry.js:129-133 | empty selection, category `'全部'`, sort `'default'`; the selection is duplicate-free |
| ExperimentShop.ShopState.ToggleCart | public/experiment/shopping-task-entry.js:179-188 | the selection becomes its toggle and stays duplicate-free |
| ExperimentShop.ShopState.SelectCategory | public/experiment/shopping-task-entry.js:315-316 | sets the category only |
| ExperimentShop.ShopState.SelectSort | public/experiment/shopping-task-entry.js:326-327 | sets the sort only |
| ExperimentShop.ShopState.DrawerTotal | public/experiment/shopping-task-entry.js:195-219 | the drawer's total is the total and the price sum of the selected cards |
| ExperimentShop.RunningTotal | public/experiment/shopping-task-entry.js:200-206 | the loop's running total equals the total and the price sum of the named cards, for any catalogue |
| ExperimentShop.Page.constructor | public/experiment/shopping-task-entry.js:27-31 | nothing played, no sequence started, no track |
| ExperimentShop.Page.TryPlayMusic | public/experiment/shopping-task-entry.js:34-46 | runs once; a resolution records track and start time, a rejection `'music_error'` at now |
| ExperimentShop.Page.StartSequence | public/experiment/shopping-task-entry.js:64-76 | runs once; calls `playGroupForDuration` when present, else `tryPlayMusic` |
| AppShop.InitialGroup | src/js/shopping-task-entry.js:7 | the group is never empty |
| AppShop.InitialGroupCases | src/js/shopping-task-entry.js:7 | unset or empty gives `'neutral'`; a stored group is kept |
| AppShop.BaseIdsDistinct | src/js/shopping-task-entry.js:34-43 | the eight base ids are distinct |
| AppShop.ProductsTags | src/js/shopping-task-entry.js:46-49 | 16 distinct cards; classic ones tagged 经典, eco ones 环保 |
| AppShop.CartLines | src/js/shopping-task-entry.js:95-102 | as many lines as selected keys that name a card (`KnownCount`); line `i` is the `category-name（tag）` label of the `i`-th named card |
| AppShop.CartLinesCount | src/js/shopping-task-entry.js:95-97 | as many lines as known keys; an unknown key adds none |
| AppShop.CartLinesSnoc | src/js/shopping-task-entry.js:95-105 | one more key appends its card's line or nothing |
| AppShop.CartLinesOne | src/js/shopping-task-entry.js:95-102 | a selection of one key that names a card lists exactly that card's line |
| AppShop.Page.constructor | src/js/shopping-task-entry.js:8-12 | empty selection, nothing played; the selection is duplicate-free |
| AppShop.Page.ToggleCart | src/js/shopping-task-entry.js:81-89 | the selection becomes its toggle and stays duplicate-free |
| AppShop.Page.RenderCart | src/js/shopping-task-entry.js:91-106 | the rendered lines are `CartLines` of the selection |
| AppShop.LabelLinesSnoc | src/js/shopping-task-entry.js:95-105 | one more key appends its card's line, or nothing for an unknown key |
| AppShop.RenderLines | src/js/shopping-task-entry.js:95-105 | the `forEach` loop produces exactly `LabelLines` |
| AppShop.Page.TryPlayMusic | src/js/shopping-task-entry.js:15-28 | runs once; the badge reads 怀旧音乐 / 中性音乐 on success and 音乐加载失败 on rejection |
| Server.AssignLast | server.js:29-35 | a missing or unreadable file reads as `last: null`; a file holding `null` makes the handler throw |
| Server.NextGroup | server.js:45 | `'nostalgia'` iff the last group was `'neutral'`, else `'neutral'` |
| Server.AssignmentsAlternate | server.js:44-46 | after any successful assignment the next names the other group, and the one after that the same again |
| Server.AssignDefaults | server.js:29-35 | unreadable files, `null` and other values of `last` give `'neutral'` |
| Server.IdFields | server.js:53 | whatever the fields hold, the id places them at 1-5, 5-7, 7-9, 9-11, 11-13 and 13-15 |
| Server.ParticipantId | server.js:47-53 | `P` and the padded date fields; stated by `IdFields` and `ParticipantIdFormat` |
| Server.ParticipantIdFormat | server.js:47-53 | for a four-digit year: 15 characters, `P` and digits that read back as year, month (1-12), day, hour, minute, second |
| Server.AssignStore.constructor | server.js:27-35 | the store holds the assignment file as read, `None` when it is missing or does not parse |
| Server.AssignStore.AssignGroup | server.js:43-55 | answers and writes back the next group with a fresh id; writes nothing when the handler throws |
| Server.Mp3Urls | server.js:106-110 | urls of exactly the regular `.mp3` files (any case), mapped to `/music/<group>/<name>`, never more than entries |
| Server.Mp3UrlsAppend | server.js:106-110 | the listing keeps directory order: it distributes over concatenation |
| Server.FirstUrlFirstKept | server.js:106-110 | the first url, the one the page plays, is that of the first kept entry |
| Server.NoKeptNoUrls | server.js:106-110 | with no regular `.mp3` entry the list is empty |
| Server.MusicList | server.js:116-119 | the answer always has both keys |
| Server.Mp3UrlsRelative | server.js:110 | every url lies under `/music/<group>/` and is not absolute, so the page builds 21 candidates |
| Server.ServerManifestTaken | server.js:116-119 | the page takes the server's list as it is, and an empty group then has no track |
| Server.BasicCredentials | server.js:61-63 | the credentials pass the first test only when non-empty and the scheme is `Basic` |
| Server.BasicCredentialsOf | server.js:61-63 | `Basic <creds>` yields the credentials; another scheme, empty credentials or no header yields nothing |
| Server.BasicAuth | server.js:58-69 | the guard as written; stated by `ColonPasswordLocksOut`, `TrailingPieceAccepted` and `GuardsAgreeWithoutSecondColon` |
| Server.ColonPasswordLocksOut | server.js:64-65 | as written, a configured password containing `:` is never accepted |
| Server.TrailingPieceAccepted | server.js:64-65 | as written, `user:password:anything` is accepted |
| Server.DefaultAccountTrailingPiece | server.js:58-65 | with the default account, `admin:eco123:junk` is accepted |
| Server.FirstColonExact | server.js:64-65 | corrected: accepted iff the decoded text is exactly `user:password` |
| Server.FirstColonAcceptsColonPassword | server.js:64-65 | corrected, a password with `:` is accepted where the code as written rejects it |
| Server.GuardsAgreeWithoutSecondColon | server.js:60-69 | both guards agree whenever the decoded text has at most one `:` |
| Server.FirstNonEmpty | server.js:137-138 | `a \|\| b \|\| ''` on header values |
| Server.MakeRecord | server.js:133-140 | the payload's fields override the generated `_id`, `received_at`, `ip` and `user_agent`, which fill in only what it lacks |
| Server.RemoveId | server.js:153 | the records without the id, at most as many; equally many iff none has the id |
| Server.RemoveIdMembers | server.js:153 | what stays is exactly the records without the id |
| Server.RemoveIdKeepsOrder | server.js:153 | the filter keeps order across concatenation |
| Server.RemoveIdNoMatch | server.js:153-155 | with no matching record the list is unchanged |
| Server.DataStore.constructor | server.js:84-92 | the store holds the data file as read |
| Server.DataStore.AppendData | server.js:94-98 | the record is added at the end and earlier records are unchanged; an unreadable file counts as empty |
| Server.DataStore.PostRecord | server.js:131-146 | appends the built record and answers its `_id`, which may be the client's |
| Server.DataStore.DeleteById | server.js:149-165 | 404 without a write iff no record has the id, else 200 and the rest written |
| Server.DataStore.ClearAll | server.js:168-175 | the file becomes `[]` |
| Server.AppendThenDelete | server.js:149-161 | deleting a just-appended record by its unique id restores the earlier list |
| Server.EcoClassicSplit | server.js:198-200 | each id is counted once, as eco or as classic; the eco count is the number of ids ending in `-eco` |
| Server.EcoPositionsSnoc | server.js:198-200 | one more id adds one eco position exactly when it ends in `-eco` |
| Server.StatsAddUp | server.js:196-200 | eco + classic = `totalPurchases` |
| Server.PidSetSnoc | server.js:194-195 | a record adds its truthy participant id to the set, or nothing |
| Server.Pid | server.js:194 | `r.participant_id \|\| (r.subjectInfo && r.subjectInfo.id) \|\| r.id` |
| Server.RepeatCountsOnce | server.js:185-195 | a repeated record does not change `participants` |
| Server.ComputeStats | server.js:183-221 | the loop's counts are the distinct truthy ids, the purchases, eco and classic, and eco + classic = purchases |
| Server.CountItems | server.js:198-200 | the inner loop counts eco and classic ids |
| Server.SameCatalogAsShop | server.js:291-306 | the export rebuilds the same 8 base items and 16 cards as the experiment page |
| Server.RecordRows | server.js:313-330 | one row per product |
| Server.RowFor | server.js:313-330 | one record's row for one product; stated by `ExportRow` and `ExportShape` |
| Server.ItemRows | server.js:308-331 | the rows of every record and product; stated by `ItemRowsLength` and `ItemRowAt` |
| Server.ItemRowsLength | server.js:308-331 | `|list| * |products|` rows |
| Server.ItemRowAt | server.js:308-331 | record `i`'s row for product `k` is at `i * |products| + k` |
| Server.ExportItemLevel | server.js:275-335 | a header line, then the rows of every record and product |
| Server.WriteRows | server.js:288-331 | the nested loops produce exactly those lines |
| Server.ExportShape | server.js:303-330 | 16 rows per record; row `16i + k` names card `k` with its variant and price, and `selected` is 1 iff the key is in `selected_items`, else 0 |
| Server.ExportRow | server.js:313-330 | the content of one export row |
| Server.ProductCount | server.js:303-306 | `ALL_PRODUCTS` has 16 cards |
| Server.ProductFacts | server.js:303-306 | card `k`: classic at even `k`, priced at its base item's price |
| Server.GuardTable | server.js:123-128 | as written: record reads and deletes, stats, the participant export and `/admin` are guarded |
| Server.Mounted | server.js:123-124 | Express mount matching: the path is the mount or lies below it, ignoring ASCII case |
| Server.MountedAtAndBelow | server.js:123-124 | a lower-case mount covers its own path and every path below it |
| Server.GuardedIgnoresCase | server.js:123-128 | whether a path is guarded does not depend on its case |
| Server.GuardTableCapitals | server.js:123 | `/ADMIN` and `/Admin` are guarded like `/admin` |
| Server.UnguardedTable | server.js:122-128 | as written: submissions, assignment and the item-level export are not guarded |
| Server.NotGuarded | server.js:123-128 | a path that differs from each guarded mount at some position, and is no GET or DELETE under the data path, is not guarded |
| Server.ExportsGuarded | server.js:122-128 | corrected: both exports are guarded, everything guarded before still is, and submissions stay open |
| Server.GuardWidened | server.js:122-128 | corrected: everything guarded as written stays guarded |

## Left out

- Howler playback, `fetch`, `AbortController` timeouts, object URLs, `setTimeout` delays: foreign engines. Their answers are oracles, and every promise is taken to settle at once.
- `init()`, `play()` and `setVolume()` of both audio managers: calls into the engine with no logic of their own.
- `encodeURI`, `encodeURIComponent` and base64 decoding: library calls, passed in as functions.
- The display names, descriptions, images and HTML of every card and line: view text.
- In `SegmentEncodeSegments`, segments are only shown to go through the encoder. What `encodeURIComponent` writes is not modelled.
- In both shopping pages, `window.onMusicStarted`'s save call, the finish handler's saved payload (except `selected_categories`), the drawer open/close, `onMusicEnded` and the page navigation: DOM and Firebase wiring.
- `ExperimentShop.SortBy`: stability is made by the insertion order but not proved. Array sort order among equal prices is engine-defined before ES2019.
- Prices in fen: `toFixed(2)` formatting and floating-point sums are not modelled.
- In the server stats: `greenRatio`, `avgDecisionSec`, `totalSpend` and the duration sums are floating point and left out.
- The participant-level CSV (server.js:224-272): floating-point ratios and formatting.
- `JSON.stringify` and `join(',')` of the export lines: rows are kept as values, and the byte-order mark is left out.
- `Server.IsEcoId`: a non-string selected id counts as classic. JavaScript would first coerce it with `String(id)`, so an array such as `["x-eco"]` would count as eco.
- `Server.PidSet`: the set holds JSON values by value. A JavaScript `Set` compares object-valued ids by identity.
- Non-object request bodies and non-object stored records: the model's records are JSON objects.
- The generated `_id` (`Date.now().toString(36)` plus random digits) and the ISO time are parameters. Their uniqueness is not modelled.
- Express routing, static files, the listing of `/api/experiment-data` (it returns the stored list) and the directory creation in `ensureDataFile`, `readAssign` and `writeAssign`: plain I/O.
- `parseInt` of digit strings beyond 2^53 loses precision in JavaScript. Digits are read exactly here.
- A non-string `subjectInfo.id` (`String(si.id)`) and other `localStorage` shapes: only strings and absence are modelled.
- `JSON.parse` of `music-list` answers: a manifest maps group names to arrays of strings.
- `AppAudio.AudioManager.Stop`: the engine's stop call is not recorded, since the players are never unloaded there.
- Server.GuardTable: `express.static(public)` is registered at server.js:10, before the guards at server.js:123, and server.js has no `/admin` route. Whatever `/admin` serves comes from the static files without credentials, so the guard on `/admin` holds only for paths no static file answers. Static files are not modelled.
- Overlapping audio runs: `setTimeout(startSequence, 0)` starts `playGroupForDuration`, and the first `pointerdown` starts `tryPlayMusic` (public/experiment/shopping-task-entry.js:78,81). The two ladders then interleave on one audio manager: each stops and unloads the other's player, and they share `retryCount` and `musicStartTime`. The model runs each audio-manager call atomically, so this interleaving is not captured.
- Characters outside the Basic Multilingual Plane: a Dafny `char` is a Unicode scalar value and JavaScript counts UTF-16 code units, so lengths and indexes of such text differ. Every literal in the model is inside the plane.

## Findings

| source | as written | input that shows it | evidently intended | confidence | as-written member | corrected member |
|---|---|---|---|---|---|---|
| server.js:64-65 | the decoded credentials are split at every `:` and only the first two pieces are compared | `ADMIN_PASS=se:cret` with the header `Basic` + base64 of `admin:se:cret` is refused; with the defaults, `admin:eco123:junk` is let in | split at the first colon, as section 2 of RFC 7617 defines the user-pass text, so any password works and nothing after it is ignored | medium, not executed | Server.BasicAuth (Server.ColonPasswordLocksOut, Server.TrailingPieceAccepted) | Server.BasicAuthFirstColon (Server.FirstColonExact, Server.FirstColonAcceptsColonPassword) |
| server.js:122-128 | the item-level export `/api/product-level-export.csv` is not among the guarded paths, though the comment at line 122 says data-reading routes are protected | `GET /api/product-level-export.csv` with no `Authorization` header returns every participant's selections | guard it like `/api/experiment-export.csv` | medium, not executed | Server.Guarded (Server.GuardTable) | Server.GuardedWithItemExport (Server.ExportsGuarded) |
