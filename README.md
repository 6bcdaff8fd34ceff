# Wisdom Spin — a verified model of the game logic

Wisdom Spin is a party quiz game. Players are added to a colour-coded
wheel. A spin picks the player under a fixed pointer at the top of the
wheel. That player then gets a trivia question, either from a remote AI
service or from a bundled fallback bank. A 25-second countdown reveals the
answer, and a correct answer scores a point.

This project models the logic of the game in Dafny and proves what it
promises:

- `types.dfy` (module `Types`): the categories, difficulties and languages. It includes the literal labels the game compares, the picker option lists, the question record and the participant record.
- `js.dfy` (module `Js`): the JavaScript built-ins the logic depends on, with ECMAScript semantics.
  - `String.prototype.trim` uses the full WhiteSpace and LineTerminator set.
  - `%` on numbers is a truncating remainder, so its result has the sign of the dividend.
  - `Array.prototype.slice(-k)`.
- `wheel.dfy` (module `Wheel`): the numeric parts of the wheel component.
  - the colour-shading helper `adjustColor`, including hex parsing and printing
  - slice-label truncation
  - the equal-slice layout
  - the size clamp and the font-size rule
  - the per-slice values the drawing loop uses
- `questions.dfy` (module `Questions`): `fetchQuestion`. It covers category resolution, the three-tier fallback bank, and the offline, remote-success and failure branches.
  - Its oracles are parameters: the two `Math.random()` draws, the `navigator.onLine` flag, and the remote service, as a function from request to optional payload.
- `resolver.dfy` (module `Resolver`): the spin's new rotation and the pointer-to-winner formula. It proves that the winner is the slice under the pointer in the layout of the list the spin's timeout indexes.
- `app.dfy` (module `App`): the session.
  - The pure list transforms behind the handlers are functions.
  - React state becomes the fields of class `Session`.
  - Each handler is a method with a frame over the fields it changes.
  - The three timers become event methods: `SpinComplete` (the 5 s spin timeout), `FetchDue` (the 2.5 s follow-up) and `Tick` (the 1 s countdown).
  - The spin's closure is data. `PendingSpin` holds the target rotation, the participant array the closure holds, and the captured selections and history.
  - The closure holds the array itself, not a copy. `Session.snapshotShared` records whether that array is still the current list. Adding, deleting and scoring build new arrays, so the spin does not see those changes. The leaderboard's in-place sort does reorder it.
- `wrappers.dfy` (module `Wrappers`): `Option`.

Rotation and angles are real numbers. JavaScript's `%` is modelled exactly,
so the winner formula is proved for every rotation, negative ones included.
The wheel layout takes the length of a full turn as a parameter. The canvas
uses 2π radians, and the winner formula uses 360 degrees. The same lemmas
serve both.

Two behaviours of the code are worth knowing:

- On a successful remote call, an empty or missing `question` or `answer` is filled from the local fallback item (services/geminiService.ts:94-95).
- Nothing in the logic blocks adding or deleting players while a spin is in progress. Those build new arrays, so the winner is still taken from the array the spin began with.
- The leaderboard button stays visible while the wheel turns (App.tsx:247, 255), and opening the leaderboard sorts the participant array in place (App.tsx:397). When that array is the one the spin's timeout holds, the winner is read from the sorted order at the pointer's index (App.tsx:176). With two players, the second ahead on points, and the pointer over the first slice, the leader wins instead of the player drawn under the pointer (`App.LeaderboardPicksLeader`).

## Model

| member | source | states |
|---|---|---|
| Types.CategoryLabel | types.ts:2-10 | each category's literal label, never empty; its distinctness is `CategoryLabelInjective` |
| Types.DifficultyLabel | types.ts:16 | each difficulty's literal label, never empty; its distinctness is `DifficultyLabelInjective` |
| Types.CategoryLabelInjective | types.ts:2-10 | distinct categories have distinct literal labels (both directions), so the source's string comparisons are comparisons of the enumeration |
| Types.DifficultyLabelInjective | types.ts:16 | the three difficulty labels are pairwise distinct (both directions) |
| Types.CategoryOptionsComplete | types.ts:12-14 | the category picker lists every category exactly once, and the random sentinel first |
| Types.DifficultyOptionsComplete | types.ts:16-18 | the difficulty picker lists each difficulty exactly once, in Easy, Medium, Hard order |
| Js.TrimStart | App.tsx:141 | the result is a suffix of the input and does not start with whitespace |
| Js.TrimEnd | App.tsx:141 | the result is a prefix of the input and does not end with whitespace |
| Js.TrimStartDropsWhitespace | App.tsx:141 | every character removed from the front is whitespace |
| Js.TrimEndDropsWhitespace | App.tsx:141 | every character removed from the back is whitespace |
| Js.Trim | App.tsx:141-144 | `trim()` never lengthens the name, and a non-empty result neither starts nor ends with whitespace |
| Js.TrimSlice | App.tsx:141-144 | the trimmed name is the slice of the input that starts where the leading whitespace ends |
| Js.TrimTailWhitespace | App.tsx:141-144 | everything after the kept part of the input is whitespace |
| Js.TrimShape | App.tsx:141-144 | trim keeps one contiguous slice `s[i..j]` of the input, with only whitespace before `i` and after `j` |
| Js.TrimEmptyIffBlank | App.tsx:141 | the trimmed name is empty exactly when the input is blank (both directions), which is the add handler's guard |
| Js.TrimIdempotent | App.tsx:144 | trimming an already trimmed name changes nothing |
| Js.Truncate | App.tsx:174 | rounding toward zero: the integer lies within one unit of `y`, on the side of zero |
| Js.Rem360 | App.tsx:174 | JS `x % 360`: in [0, 360) for x ≥ 0 and in (-360, 0] for negative x |
| Js.SliceLast | services/geminiService.ts:66 | `slice(-k)` is the suffix of length min(k, length) |
| Wheel.DigitValue | components/Wheel.tsx:130 | a hex digit's value, in either case, is below 16 |
| Wheel.LowerDigit | components/Wheel.tsx:135 | the digit `toString(16)` prints for a value is lower case and reads back as that value |
| Wheel.LowerDigitOfValue | components/Wheel.tsx:130-135 | printing the value of a lower-case digit gives the digit back |
| Wheel.ParseHex | components/Wheel.tsx:130 | `parseInt(s, 16)` on k hex digits is below 16^k |
| Wheel.ToHexString | components/Wheel.tsx:135 | `toString(16)` prints a non-empty string of lower-case hex digits |
| Wheel.FixedHex | components/Wheel.tsx:135 | the padded low digits of a number have exactly the requested length and are lower case |
| Wheel.ParseFixedHex | components/Wheel.tsx:130-135 | parsing the padded digits of v < 16^k gives v back |
| Wheel.FixedHexOfParse | components/Wheel.tsx:130-135 | printing the parsed value of a lower-case digit string gives the string back |
| Wheel.ToHexStringLeadingOne | components/Wheel.tsx:135 | `(16^k + v).toString(16)` is "1" followed by v padded to k digits, which is why the source adds 0x1000000 and drops the first character |
| Wheel.ColorValue | components/Wheel.tsx:130 | a '#rrggbb' colour denotes a 24-bit number |
| Wheel.Red | components/Wheel.tsx:132 | `num >> 16` is the number's top byte: below 256 for a 24-bit number, and the multiple of 65536 just below it |
| Wheel.Green | components/Wheel.tsx:133 | `(num >> 8) & 0x00FF` is a byte |
| Wheel.Blue | components/Wheel.tsx:134 | `num & 0x0000FF` is a byte |
| Wheel.ClampChannel | components/Wheel.tsx:132-135 | the nested conditional clamps a channel to [0, 255]: unchanged inside, 0 below, 255 above |
| Wheel.Shade | components/Wheel.tsx:131-135 | the three clamped shifted channels packed back together form a 24-bit number |
| Wheel.AdjustColor | components/Wheel.tsx:129-136 | the result is always '#' followed by six lower-case hex digits |
| Wheel.AdjustColorValue | components/Wheel.tsx:135 | the printed colour reads back as the packed shade: the `+ 0x1000000` / `slice(1)` printing loses nothing |
| Wheel.ShadeChannels | components/Wheel.tsx:132-135 | the channels of the packed shade are the clamped shifted input channels |
| Wheel.AdjustColorChannels | components/Wheel.tsx:130-135 | each output channel (bits 16-23, 8-15, 0-7) is the input channel plus `amt`, clamped to [0, 255] |
| Wheel.ChannelsOfRgb | components/Wheel.tsx:132-135 | packing three bytes and reading the channels back gives the bytes |
| Wheel.RgbOfNum | components/Wheel.tsx:130-134 | every 24-bit number is the packing of its three 8-bit channels |
| Wheel.AdjustColorZero | components/Wheel.tsx:130-135 | shading a lower-case colour by 0 returns it unchanged (parse/print round trip) |
| Wheel.AdjustColorMonotone | components/Wheel.tsx:131-135 | a negative shift never raises a channel and a positive one never lowers one |
| Wheel.GradientEnd | components/Wheel.tsx:74 | a slice's outer gradient stop is a lower-case colour whose channels are the slice colour's minus 64, floored at 0 |
| Wheel.DisplayName | components/Wheel.tsx:96 | a name of at most 8 characters is shown as is; a longer one as its first 6 characters and "..", exactly 8 |
| Wheel.WheelSize | components/Wheel.tsx:22-24 | the wheel size is always in [170, 210], and equals min(0.60 w, 0.28 h) when that is already in range |
| Wheel.WheelSizeMonotone | components/Wheel.tsx:22-24 | a larger window never gives a smaller wheel |
| Wheel.FontSize | components/Wheel.tsx:89-90 | the label font is size/18 for up to ten participants and size/22 beyond |
| Wheel.FontSizeNonIncreasing | components/Wheel.tsx:89-90 | more participants never give larger labels |
| Wheel.SliceWidth | components/Wheel.tsx:60 | n slices of the computed width make exactly one turn |
| Wheel.SliceStart | components/Wheel.tsx:63 | slice i's start angle is at least 0, and at most one turn for i ≤ n |
| Wheel.SliceEnd | components/Wheel.tsx:64 | slice i ends after it starts, and within one turn for i < n |
| Wheel.SliceMid | components/Wheel.tsx:65 | the label angle lies strictly inside its slice, exactly halfway |
| Wheel.SliceLayout | components/Wheel.tsx:60-65 | slice 0 starts at 0; each slice ends where the next starts; the last ends at a full turn; the label angle is the midpoint, strictly inside its slice |
| Wheel.SliceContaining | components/Wheel.tsx:60-64 | every angle of one turn lies in slice floor(angle / width), which is a valid index |
| Wheel.SliceUnique | components/Wheel.tsx:60-64 | an angle lies in no other slice: the slices do not overlap |
| Wheel.DrawSlice | components/Wheel.tsx:62-96 | one participant's drawing values: slice i's start, end and label angles, 0 ≤ start < mid < end ≤ one turn; the label is `DisplayName` of the name and the font `FontSize` for the list's length; the inner stop is the participant's colour and the outer stop its `GradientEnd`, 64 darker per channel |
| Wheel.DrawPlan | components/Wheel.tsx:62-101 | the drawing loop yields one entry per participant, in list order, entry i being slice i's values |
| Wheel.DrawPlanTiles | components/Wheel.tsx:60-65 | the drawn slices start at 0, follow each other without gap or overlap, and close at one full turn |
| Questions.Bank | services/geminiService.ts:5-33 | the bundled bank has a pool exactly for Religion, Geography, Science and History, in both languages |
| Questions.BankWellFormed | services/geminiService.ts:5-33 | every pool in the bundled bank is non-empty and has non-empty questions and answers |
| Questions.PickIndex | services/geminiService.ts:40 | `Math.floor(Math.random() * len)` is a valid index i with i ≤ u·len < i + 1, so each index takes a 1/len share of the draw |
| Questions.ResolveCategory | services/geminiService.ts:36-41 | the resolved category is never the random sentinel; a concrete first category passes through; an empty list or the sentinel draws from the seven concrete categories |
| Questions.RandomShare | services/geminiService.ts:36-40 | an empty selection resolves exactly as the sentinel does, and a draw in [k/7, (k+1)/7) picks the k-th concrete category |
| Questions.FallbackPool | services/geminiService.ts:43-46 | the pool is the exact (language, category) pool, else the language's Geography pool, else the Arabic Geography pool; it is never empty and every item is usable |
| Questions.UnbankedCategoriesUseGeography | services/geminiService.ts:5-33 | Sport, Literature and Art have no pool of their own in either language and get the Geography pool |
| Questions.LocalItem | services/geminiService.ts:47 | the local item has a non-empty question and answer |
| Questions.LocalItemInPool | services/geminiService.ts:47 | the local item is a member of the fallback pool |
| Questions.RecentHistory | services/geminiService.ts:66 | the de-duplication hint is the suffix of the history of length min(10, length) |
| Questions.BuildRequest | services/geminiService.ts:61-66 | the request carries the resolved category, requested difficulty and language, and the last min(10, n) history entries |
| Questions.OrElse | services/geminiService.ts:94-96 | JS `value \|\| fallback` on a string: the value when present and non-empty, the fallback otherwise |
| Questions.ArchiveNote | services/geminiService.ts:53 | the explanation an offline question without one of its own gets, in the chosen language; never empty |
| Questions.FailureNote | services/geminiService.ts:106 | the explanation a failed remote call gets, in the chosen language; never empty |
| Questions.RemoteQuestion | services/geminiService.ts:93-98 | the question built from a payload: each of question and answer is the payload's if non-empty and the local item's otherwise; the explanation is the payload's if non-empty and "" otherwise; category and requested difficulty are kept |
| Questions.FetchQuestion | services/geminiService.ts:35-111 | in every branch the question and answer are non-empty and the category is the resolved one (never the sentinel); offline the difficulty is Medium |
| Questions.FetchOffline | services/geminiService.ts:49-57 | offline: the local item's question and answer, its own explanation or the language's "local archive" note, difficulty Medium |
| Questions.FetchRemoteSuccess | services/geminiService.ts:88-99 | remote success: each of question and answer is the payload's if non-empty and the local item's otherwise; the explanation equals the payload's when that is non-empty and is "" otherwise; the requested difficulty is kept |
| Questions.FetchFailure | services/geminiService.ts:101-110 | an empty response or any failure: the local item with the language's "connection failed" note and difficulty Medium |
| Resolver.SpinTarget | App.tsx:168 | a spin raises the rotation by an amount in [5040, 5400): fourteen full turns plus less than one |
| Resolver.Mod360 | App.tsx:174 | the mathematical angle modulo one turn lies in [0, 360); the reference for the source's double remainder |
| Resolver.WinnerAngle | App.tsx:174 | the source's `(270 - rot % 360 + 360) % 360` is in [0, 360) for every rotation |
| Resolver.WinnerIndex | App.tsx:175 | the resolved winner index is a valid index for n ≥ 1 participants |
| Resolver.WinnerAngleIsPointerAngle | App.tsx:174 | the double JS remainder equals the pointer angle (270 − rot) mod 360, for negative rotations too |
| Resolver.WinnerIndexPeriodic | App.tsx:174-175 | adding any whole number of turns to the rotation leaves the winner unchanged |
| Resolver.WinnerAt270With4 | App.tsx:174-175 | at rotation 270 with four players the winner is index 0 |
| Resolver.WinnerIndexIsSliceFloor | App.tsx:175 | the final `% n` never changes the index: it is already floor(angle / slice width), below n |
| Resolver.WinnerIsSliceUnderPointer | App.tsx:174-175 | the resolved index is the slice of the wheel layout (components/Wheel.tsx:60-64) whose arc holds the wheel-local angle under the pointer |
| App.ColorsWellFormed | App.tsx:7 | every palette entry is a lower-case '#rrggbb' colour |
| App.NewParticipant | App.tsx:142-147 | the new entry has the trimmed name, score 0 and palette colour number (old length mod 8) |
| App.RemoveId | App.tsx:155 | the filter keeps no entry with the id, invents no entry, and keeps every entry with another id |
| App.RemoveAbsentId | App.tsx:155 | removing an id nobody has is the identity, so deleting twice is deleting once |
| App.CountId | App.tsx:155 | the number of entries with an id is at most the length |
| App.RemoveIdCount | App.tsx:155 | the filtered list is shorter by exactly the number of entries with that id |
| App.RemoveIdAppend | App.tsx:155 | the filter distributes over concatenation, so survivors keep their relative order |
| App.RemoveKeepsWellFormed | App.tsx:155 | deleting keeps every remaining entry's score non-negative and colour well formed |
| App.ClampScore | App.tsx:202 | `max(0, score + amount)`: the sum when it is not negative, 0 when it is |
| App.AppendKeepsWellFormed | App.tsx:148 | appending a well-formed entry keeps the list well formed |
| App.ApplyScore | App.tsx:202 | the map keeps length and order, leaves other ids' entries untouched, and gives the target its clamped score |
| App.ApplyScoreKeepsWellFormed | App.tsx:202 | scoring never makes a score negative and keeps every id, name and colour in place |
| App.PenaltyAtZero | App.tsx:202 | a penalty for a player already at 0 leaves the list unchanged |
| App.Insert | App.tsx:397 | inserting into the leaderboard order adds exactly that entry (multiset) |
| App.SortByScoreDesc | App.tsx:397 | the leaderboard sort is a permutation of the list |
| App.InsertSorted | App.tsx:397 | inserting into a list sorted by descending score keeps it sorted |
| App.SortByScoreDescCorrect | App.tsx:397 | the sort yields scores in non-increasing order and is a permutation of the input |
| App.SortKeepsWellFormed | App.tsx:397 | sorting keeps every entry well formed |
| App.Session.Valid | App.tsx:53-70 | the session invariant: in a valid session the countdown lies in [0, 25] and no player's score is negative |
| App.Session.constructor | App.tsx:53-70 | a new game: no players, rotation 0, not spinning, no winner or round, countdown 0 and stopped, empty history, no timers pending |
| App.Session.AddParticipant | App.tsx:139-148 | a blank name changes nothing; otherwise exactly one entry is appended at the end, earlier entries are untouched, and the list is a new array that a pending spin no longer shares; the session invariant is kept |
| App.Session.DeleteParticipant | App.tsx:153-156 | an empty selection changes nothing; otherwise the list becomes its filter by that id, a new array that a pending spin no longer shares |
| App.Session.Spin | App.tsx:160-169 | with fewer than two players or a spin in progress nothing changes; otherwise spinning starts, winner, round and reveal are cleared, the rotation rises by [5040, 5400), and the timeout holds the target, the current list's array itself (shared) and the selections |
| App.Session.SpinComplete | App.tsx:171-183 | the winner is the entry at the resolved index of the array the timeout holds; spinning stops, the winner is shown and the question fetch is queued with the captured selections |
| App.Session.FetchDue | App.tsx:186-199 | the oldest queued fetch shows the question `fetchQuestion` gives for the captured selections, appends its text to the history, and starts the 25 s countdown |
| App.Session.Tick | App.tsx:128-137 | the countdown only falls while running; on reaching 0 it stops and reveals the answer; a stopped countdown is left alone; time never goes negative |
| App.Session.UpdateScore | App.tsx:201-208 | the list becomes its score map, a new array that a pending spin no longer shares, and round, winner, reveal and timer are cleared |
| App.Session.MarkWrong | App.tsx:374 | the "wrong" button clears only the round and the winner; scores, reveal and countdown are not in its frame |
| App.Session.ShowLeaderboard | App.tsx:397 | opening the leaderboard replaces the list itself by its descending-score order; when a pending spin holds that same array, the spin's list is sorted too, and otherwise the pending spin is untouched |
| App.SortSwapsTwo | App.tsx:397 | two players in ascending score order come out of the sort swapped |
| App.HalfDrawFromRest | App.tsx:168-175 | from rotation 0 the draw 0.5 targets 5220 degrees, which resolves to index 0 of two |
| App.LeaderboardDuringSpin | App.tsx:160-183 | a spin, the leaderboard opened before it stops, and its timeout: the list is sorted and the winner is the sorted list's entry at the resolved index |
| App.LeaderboardPicksLeader | App.tsx:160-183 | with two players, the second ahead, a spin from rest drawing 0.5, and the leaderboard opened mid-spin: index 0 held the trailing player when the spin began, yet the leader wins |
| App.TwoPlayers | App.tsx:139-148 | two non-blank names give a valid two-player game with nothing pending |
| App.SpinToWinner | App.tsx:160-183 | a spin with two or more players and its timeout leave a winner on screen and exactly one fetch pending for that winner, with the list and history unchanged |
| App.AskQuestion | App.tsx:186-199 | the follow-up puts a round on screen, records one more question and starts the full countdown |
| App.StartRound | App.tsx:160-199 | a spin, its timeout and its follow-up leave a round on screen with a 25 s running countdown and one question in the history |
| App.RoundAutoReveals | App.tsx:128-137 | twenty-five ticks after the question arrives the answer is revealed and the countdown stopped, with the question recorded once |

## Left out

- sw.js (the service worker's cache install, activate and fetch) is browser plumbing and is not part of this model.
- The AI SDK call, the prompt text, `JSON.parse`, the API key and `navigator.onLine` are foreign calls. They are parameters: an online flag, and a remote function giving an optional payload of optional strings. A payload field holding a non-string is not modelled.
- `Math.random()` is a parameter wherever it is drawn. Participant ids are given as arguments, and their uniqueness is not claimed: ids are random in the game.
- `setTimeout` and `setInterval` are explicit events (`SpinComplete`, `FetchDue`, `Tick`). Their timing is not modelled, and neither is React's rescheduling of effects. One `Tick` is one interval callback followed by the effect run it triggers.
- The `loadingQuestion` flag is not modelled. `fetchQuestion` never rejects, so the flag is cleared again within the same `FetchDue` step.
- Audio, mute persistence in `localStorage`, translations, markup, the language toggle, the score-panel visibility flag and the test hook are user interface.
- Canvas drawing is left out: gradients, shadows, the device-pixel ratio, the resize listener and the transition easing. Only the numbers the drawing uses are modelled, in `Wheel.DrawPlan`.
- The canvas is not part of the session state, so the model says nothing about which order is on screen. The winner lemmas are about the layout of the array a spin's timeout indexes. The wheel draws the current list: after an add or delete during a spin, the two differ. The redraw is memoised on the participants array's identity (components/Wheel.tsx:33, 125), and the leaderboard sorts that array in place (App.tsx:397). So after the leaderboard is opened the canvas keeps showing the old order, while a pending spin and the next one resolve against the sorted order.
- Floating point: rotation and angles are exact reals, not IEEE-754 doubles. The colour shift `Math.round(2.55 * percent)` is taken as an integer argument; the slice gradient's −25 % is `Wheel.GradientShade` = −64.
- Wheel.AdjustColor: requires a well-formed '#rrggbb' colour. The `NaN` path of `parseInt` on other input is not modelled, and every caller passes a palette colour.
- Wheel.DisplayName: counts Dafny characters (code points), where JavaScript's `length` and `substring` count UTF-16 units. A name with characters outside the basic plane can be cut differently.
- Js.Trim: works on code points, with the same caveat about UTF-16 units.
- App.SortByScoreDesc: proved sorted and a permutation. That it is stable, as JavaScript's `sort` is, is not proved, although the insertion order it uses keeps equal scores in list order.
- `lastPlayedTurn` in the participant record is never set or read by the core, and is not modelled.
- The code has no manual reveal and never discards a stale fetch, so the model has neither.
