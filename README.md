# QuizBattle in Dafny

This project models the core of QuizBattle in Dafny 4.11 and proves properties of that model. QuizBattle is a real-time quiz game. Players join a room by its code. They play in two teams that answer in turn, or in free-for-all (FFA) mode, where every player answers every question. In team games each team answers by a vote of its members.

The model has these layers:

- **Room engine** (`server/index.js`).
  - `RoomSpec` is a value-level state machine. Each socket handler and timer callback is a pure function from the room state to the next state: join, leave, kick, disconnect, team moves, start, answer, team vote, pass, skip, pause, and the round/review/finish transitions.
  - A predicate `Valid` is proved preserved by every one of these transitions.
  - `RoomProps` proves the game rules as lemmas over those functions. Its topics are pause and resume, the host's and the players' grace periods and rejoins, kicks, join balance, the start checks, the answer guards and the deadline tick. The score bound, resolving at most once and the finish conditions are lemmas of `RoomSpec` itself (`TeamScoreNeverDecreases`, `NoDoubleResolution`, `AdvanceOutcome`).
  - `Rooms.Room` is a class whose methods update the room's fields in place. Each method's postcondition equates the new state with the corresponding `RoomSpec` function.
  - `Rooms.Registry` holds the room map and the periodic tick.
- **Pure rules**.
  - `Rules` covers configuration limits, round plans, scoring with the speed bonus and streaks, and the winners.
  - `Votes` tallies a team's answer vote (`finalizeTeamRoundFromVotes`), applies the pass rule and breaks ties between options.
  - `Roster` handles participants and player statistics, team assignment and rebalancing.
- **Question supply** (`Supply`, `Quiz`). Keys made from the question words deduplicate the questions of one game, within and across the two teams. The pool is topped up with emergency questions until it holds enough fresh ones.
- **Question generator** (`server/questionGenerator.js`).
  - `Generator` covers the parameter normalizers, `normalizeQuestion`, the difficulty curve, unique pushes, the top-question pick and the harmonisation of a theme's pool.
  - `LocalQuestions` covers the offline question builders: options, year distractors, sentence compaction and fact rotation.
  - `Providers` covers provider ordering, reviewer choice, cooldowns and the TTL caches (classes over maps ordered by insertion).
- **Accounts and friends** (`server/database.js`).
  - `Social` covers the pure helpers: profile sanitising, rating deltas, achievements and the invite PIN.
  - The class `Social.FriendStore` holds the friend-request, response and game-invite handlers over a map from unordered user pairs to friendship rows.
- **Client helpers** (`client/src/App.tsx`). The `Client` module holds the text helpers (`escapeXml`, `trimLine`, `getInitials`, review wording) and the `finalSummary` loop as a method proved against a tally function.
- **Text** is shared string machinery: trimming, lower-casing and decimal rendering.

Time is always an explicit `now` argument, and randomness is always an explicit argument: the coin for team assignment, generated keys and suffixes, and the shuffles.

## Model

| member | source | states |
|---|---|---|
| Providers.ProviderOrder | server/questionGenerator.js:2732-2740 | the providers tried for a mode are distinct; none for `synthetic` and only for it; all five for `hybrid`, `openai` and `auto`; never OpenAI for `free` |
| Providers.ReviewerPreference | server/questionGenerator.js:2760-2797 | a generator's reviewer list holds the four other providers, each once |
| Providers.ReviewerPreferenceCovers | server/questionGenerator.js:2760-2797 | every provider other than the generator is on its reviewer list |
| Providers.FirstAvailable | server/questionGenerator.js:2760-2797 | the chain of `if (providerAvailable(..)) return ..` gives an available candidate when there is one, else the fallback |
| Providers.FirstAvailableIsFirst | server/questionGenerator.js:2760-2797 | every candidate before the chosen one is unavailable |
| Providers.PickReviewerProvider | server/questionGenerator.js:2760-2797 | the reviewer is the generator itself or an available provider |
| Providers.ReviewerIsAnotherWhenPossible | server/questionGenerator.js:2760-2797 | the generator reviews itself exactly when no other provider is available; otherwise the reviewer is the first available one of its list |
| Providers.ProviderCooldowns.constructor | server/questionGenerator.js:42-42 | the cooldown is `AI_PROVIDER_COOLDOWN_MS` clamped to 60 000..3 600 000 (default 600 000) and no provider is resting |
| Providers.ProviderCooldowns.SetCooldown | server/questionGenerator.js:229-231 | the provider rests from now for the cooldown; every other provider's state is unchanged |
| Providers.ProviderCooldowns.Available | server/questionGenerator.js:2742-2749 | a provider is available iff it is configured and not cooling down (`until > now`) |
| Providers.Without | server/questionGenerator.js:238-238 | `Map.delete` on the key order: exactly the other keys remain, never more of them |
| Providers.TtlCache.Context | server/questionGenerator.js:43-44 | the context cache: capacity clamped to 20..500 (default 120), lifetime to 60 000..7 200 000 ms (default 1 200 000 ms), empty |
| Providers.TtlCache.Images | server/questionGenerator.js:49-50 | the image cache: capacity clamped to 150..4000 (default 1200), lifetime to 1 800 000..259 200 000 ms (default 43 200 000 ms), empty |
| Providers.TtlCache.Read | server/questionGenerator.js:233-264 | a missing key reads None and changes nothing; an expired entry (`expiresAt <= now`) is deleted and reads None; a live entry reads its value and changes nothing; the size bound is kept |
| Providers.TtlCache.Write | server/questionGenerator.js:244-275 | at capacity the oldest key is evicted when it is not the empty string; then the key maps to the value expiring `now + ttl`, and a new key goes last in the order; with a non-empty key the size bound is kept |
| Providers.ContextKey | server/questionGenerator.js:234-234 | the context cache's key (normalised theme, lower-cased) is never empty and at most 120 characters long |
| Client.ReplaceAll | client/src/App.tsx:577-581 | `replace(/c/g, e)` leaves a string without `c` unchanged |
| Client.ReplaceAllAppend | client/src/App.tsx:577-581 | a global replacement distributes over concatenation |
| Client.EscapeChain | client/src/App.tsx:575-581 | the five chained replacements, `&` first, equal the per-character escaping |
| Client.EscapedNoSpecials | client/src/App.tsx:575-581 | the escaped text contains none of `<`, `>`, `"`, `'` |
| Client.EscapedAmpersands | client/src/App.tsx:575-581 | every `&` of the escaped text starts one of the five entities |
| Client.UnescapeEscaped | client/src/App.tsx:575-581 | decoding the five entities gives back the original text |
| Client.EscapeXml | client/src/App.tsx:575-581 | `escapeXml` is the per-character escaping, has no special character left, an entity at every `&`, and decodes back to its input |
| Client.TrimLine | client/src/App.tsx:552-555 | a line that fits is unchanged; a longer one keeps its first `max - 1` characters and ends in an ellipsis, `max` characters in all |
| Client.TrimLineFits | client/src/App.tsx:552-555 | a trimmed line never exceeds its limit, and it is unchanged exactly when the input fits |
| Client.FormatRoster | client/src/App.tsx:546-550 | a dash for nobody, all names joined by `, ` when at most `max`, else the first `max` and ` +` the number left out |
| Client.RosterCountsHidden | client/src/App.tsx:546-550 | two long rosters with the same shown names that format alike hide the same number of names |
| Client.CeilSeconds | client/src/App.tsx:526-532 | the whole seconds left, rounded up (`Math.ceil(ms / 1000)`), never negative |
| Client.FormatMs | client/src/App.tsx:526-532 | `mm:ss`: digits around one colon, seconds below 60, and minutes × 60 + seconds equals the seconds left, rounded up |
| Client.PaddedValue | client/src/App.tsx:531-531 | `padStart(2, '0')` on a decimal keeps its value, gives only digits, and exactly two for numbers below 100 |
| Client.SplitSpaces | client/src/App.tsx:535-538 | `split(/\s+/)` always returns at least one piece, the first being the text before the first whitespace; it returns exactly one piece when the text has no whitespace |
| Client.InitialsAsWritten | client/src/App.tsx:534-544 | `getInitials` as written: at most two characters; for a name with a visible character, the first is the upper-cased first visible character, a one-word name gives its first two characters upper-cased, and with two or more words the second character is the upper-cased start of the second word |
| Client.SplitPiecesNonEmpty | client/src/App.tsx:535-538 | a text with no white space at either end splits into non-empty pieces, so `parts[1][0]` exists |
| Client.TrimmedPiecesNonEmpty | client/src/App.tsx:535-538 | a trimmed name with a visible character splits into non-empty pieces |
| Client.SplitUnfold | client/src/App.tsx:535-538 | past the first whitespace, the split is the first piece followed by the split of the rest without its leading whitespace |
| Client.DropSpacesKeepsLast | client/src/App.tsx:535-538 | dropping leading whitespace keeps a visible last character, so the rest of a trimmed name is never empty |
| Client.BlankNameHasNoInitials | client/src/App.tsx:534-544 | as written, a blank name yields the empty string, never the `'??'` placeholder |
| Client.Initials | client/src/App.tsx:534-544 | corrected `getInitials`: `'??'` for a blank name; otherwise the upper-cased first visible character, then the second character of a one-word name or the upper-cased start of the second word |
| Client.InitialsAgreeOnNames | client/src/App.tsx:534-544 | on every name with a visible character the corrected and the written version agree |
| Client.ReviewPresentation | client/src/App.tsx:478-524 | the `round-review-skip` tone is used exactly for host skips and passes |
| Client.PresentationIdentifiesKind | client/src/App.tsx:478-524 | two rounds get the same badge (tone, icon, title) iff they are of the same kind |
| Client.RoundOutcome | client/src/App.tsx:557-573 | the sentence of a pass or an answer starts with the actor's name and a space |
| Client.OutcomeOfNamelessRounds | client/src/App.tsx:557-565 | a timeout or a skip is told without the submission's name, points or answer |
| Client.OutcomeShowsPointsWhenRight | client/src/App.tsx:569-570 | the sentence of a right answer ends with its points and `).` |
| Client.Without | client/src/App.tsx:2373-2373 | `filter(item => item !== id)`: exactly the other entries remain, the list is unchanged without `id`, no duplicates are introduced |
| Client.TogglePack | client/src/App.tsx:2369-2377 | a selected pack is removed unless it is the only one, an unselected one is appended; other packs stay; a duplicate-free selection stays duplicate-free and never becomes empty |
| Client.ToggleTwiceRestores | client/src/App.tsx:2369-2377 | selecting a new pack and toggling it again restores the selection |
| Client.TallyPartitions | client/src/App.tsx:2262-2281 | every history entry lands in exactly one counter, and exactly the answered rounds add a response time |
| Client.Accuracy | client/src/App.tsx:2290-2290 | `Math.round(100 * correct / total)` rounding halves up, 0 without rounds, at most 100 |
| Client.SummarizeHistory | client/src/App.tsx:2253-2290 | the loop's counters equal the tally of the whole history, they add up to the number of rounds, and the accuracy is the rounded share, at most 100 |
| Generator.ClampNumber | server/questionGenerator.js:203-207 | a missing or non-finite value gives the fallback; otherwise the value clamped to `[min, max]`, the upper bound applied last |
| Generator.ParseAiMode | server/questionGenerator.js:286-289 | a cleaned key names the mode it spells, anything else is `hybrid` |
| Generator.NormalizeAiMode | server/questionGenerator.js:286-289 | the mode's name is the trimmed, lower-cased input, or the mode is `hybrid` |
| Generator.NormalizeAiModeRoundTrip | server/questionGenerator.js:286-289 | normalising a mode's own name gives that mode back |
| Generator.ParseTone | server/questionGenerator.js:291-294 | a cleaned key names the tone it spells, anything else is `balanced` |
| Generator.NormalizeTone | server/questionGenerator.js:291-294 | the tone's name is the trimmed, lower-cased input, or the tone is `balanced` |
| Generator.NormalizeToneRoundTrip | server/questionGenerator.js:291-294 | normalising a tone's own name gives that tone back |
| Generator.NormalizeDifficultyMode | server/questionGenerator.js:296-299 | a fixed level is named by the trimmed, lower-cased input, and the result is `mixed` exactly when that input is none of `easy`, `medium`, `hard` |
| Generator.NormalizeDifficultyModeRoundTrip | server/questionGenerator.js:296-299 | each level's own name normalises back to that fixed level |
| Generator.CleanKeys | server/questionGenerator.js:303-303 | each entry trimmed and lower-cased, in place |
| Generator.FirstKnown | server/questionGenerator.js:304-305 | the filter keeps exactly the known packs at their first occurrence, without repetition: every kept entry is a known pack of the input not met before `from`, and every known pack met for the first time is kept |
| Generator.FirstKnownOrdered | server/questionGenerator.js:304-305 | the kept packs are in order of first occurrence: wherever a later kept pack occurs in the input, every earlier kept pack has already occurred |
| Generator.OrderCons | server/questionGenerator.js:304-305 | putting a first occurrence before the packs first met after it keeps the order of first occurrence |
| Generator.FirstBeforeRest | server/questionGenerator.js:304-305 | a pack first met after position `from` occurs only after the entry at `from` |
| Generator.NormalizeModes | server/questionGenerator.js:301-306 | a non-list gives `[]`; otherwise distinct known pack ids, exactly the known ones among the cleaned entries, in the order they first occur |
| Generator.NormalizeTheme | server/questionGenerator.js:308-314 | the squeezed theme cut to 120 characters, or `Общая эрудиция` when that is empty; never empty, at most 120 |
| Generator.CleanOptions | server/questionGenerator.js:609-619 | at most four options, each non-empty and at most 180 characters; with fewer than four kept, every non-empty cleaned option is among them |
| Generator.NormalizeQuestion | server/questionGenerator.js:602-648 | a question comes out iff the squeezed prompt (cut to 240) has at least 16 characters and exactly four options survive, distinct ignoring case; it then has that prompt and those cleaned options, the given `correctIndex` when it is 0..3 and 0 otherwise, the squeezed explanation cut to 320 or the stock sentence when that is empty, the id (or the fallback id) cut to 80, and the parsed difficulty or the hint |
| Generator.ParseDifficulty | server/questionGenerator.js:632-633 | a lower-cased `easy`, `medium` or `hard` gives that level, anything else the hint |
| Generator.CleanOptionsOfClean | server/questionGenerator.js:610-619 | cleaning options that are already clean and within the limit leaves them unchanged |
| Generator.CleanOptionsUnfold | server/questionGenerator.js:610-619 | a first option that survives cleaning heads the cleaned list |
| Generator.NormalizeQuestionKeepsAnswer | server/questionGenerator.js:602-648 | a question with four clean, distinct options and a valid index comes out with the same options, so its index still names the same answer text |
| Generator.GetDifficulty | server/questionGenerator.js:658-677 | a fixed mode is returned unchanged |
| Generator.DifficultyNonDecreasing | server/questionGenerator.js:663-676 | in the mixed mode the difficulty never drops as the index grows, for every tone |
| Generator.DifficultyEnds | server/questionGenerator.js:663-676 | in the mixed mode with at least five questions the first is easy and the last is hard, for every tone |
| Generator.UniquePush | server/questionGenerator.js:650-656 | pushes iff the lower-cased prompt is new; then the question is appended and its key recorded, otherwise nothing changes |
| Generator.UniquePushKeepsIndex | server/questionGenerator.js:650-656 | "distinct keys, all recorded" survives a push |
| Generator.FreshFoldSound | server/questionGenerator.js:2799-2807 | the deduplicating fold keeps items of the list with distinct non-empty keys not seen before, and afterwards every non-empty key of the list is seen |
| Generator.PushUniqueByQuestion | server/questionGenerator.js:2799-2807 | the loop appends exactly what the fold keeps (starting from the target's keys); it keeps the target's keys distinct and adds only items of the list |
| Generator.SortByQuality | server/questionGenerator.js:2810-2810 | the sort is descending by quality and a permutation of the pool |
| Generator.PickTopQuestions | server/questionGenerator.js:2809-2821 | the loop computes the pick of the sorted pool: sorted, at most `max(count, 1)` questions (the push happens before the break), distinct prompts, all recorded in the used set |
| Generator.VariantPrompt | server/questionGenerator.js:2862-2862 | the variant prompt is the source, a space and a bracket |
| Generator.RetryPrompt | server/questionGenerator.js:2869-2869 | the renumbered prompt is the source, a space and a bracket |
| Generator.KeepFreshB | server/questionGenerator.js:2833-2838 | the first loop computes the fold over team B from A's keys, and keeps the harmony invariant |
| Generator.FillFromFiller | server/questionGenerator.js:2840-2855 | the filler loop keeps the invariant, only appends, and never exceeds `count` |
| Generator.MakeVariant | server/questionGenerator.js:2857-2874 | a copy with the source's options and answer, the requested difficulty and a non-empty key |
| Generator.FillWithVariants | server/questionGenerator.js:2857-2879 | the variant loop keeps the invariant, only appends, and never exceeds `count` |
| Generator.HarmonizeTeamSets | server/questionGenerator.js:2825-2886 | A is team A cut to `count`; B has at most `count` questions with distinct non-empty keys none of which is one of A's, and starts with the part of team B's own list that was kept |
| Generator.HarmonyFinish | server/questionGenerator.js:2882-2885 | cutting B to `count` keeps it fresh, apart from A, and starting with its own kept part |
| Generator.ParseAiModeRoundTrip | server/questionGenerator.js:286-289 | a mode's own name parses back to that mode |
| Generator.ParseToneRoundTrip | server/questionGenerator.js:291-294 | a tone's own name parses back to that tone |
| Generator.FirstKnownComplete | server/questionGenerator.js:304-305 | no known pack of the input is lost |
| Generator.FreshFoldKeys | server/questionGenerator.js:2799-2807 | the kept items have distinct, non-empty keys that were not seen before and are seen afterwards |
| Generator.FreshFoldCovers | server/questionGenerator.js:2799-2807 | the fold keeps only items of the list, and afterwards every non-empty key of the list is seen |
| Generator.InsertDesc | server/questionGenerator.js:2810 | inserting into a descending list keeps it descending and adds exactly the one element |
| Generator.PickSorted | server/questionGenerator.js:2811-2820 | picking from a descending pool gives a descending list |
| Generator.PickKeys | server/questionGenerator.js:2811-2820 | the picked questions have distinct prompts, all recorded as used, and there are at most `max(count, 1)` of them |
| Generator.HarmonyApart | server/questionGenerator.js:2825-2886 | no key of team B's harmonised list is empty or a key of team A's list |
| LocalQuestions.DedupOptionsSound | server/questionGenerator.js:2180-2188 | the options loop keeps at most four options, distinct ignoring case, each from the list; with fewer than four kept, every option's key was seen |
| LocalQuestions.DedupOptionsSaturated | server/questionGenerator.js:2187-2187 | once four options are kept the rest of the list changes nothing (the `break`) |
| LocalQuestions.TrimAll | server/questionGenerator.js:2175-2175 | each option trimmed, in place |
| LocalQuestions.NonEmpty | server/questionGenerator.js:2176-2176 | `filter(Boolean)`: exactly the non-empty entries |
| LocalQuestions.FindIndexIgnoringCase | server/questionGenerator.js:2194-2194 | `findIndex` ignoring case: the first matching position, or -1 when none matches |
| LocalQuestions.BuildOptions | server/questionGenerator.js:2173-2194 | the loop's result: None iff fewer than four distinct options survive; otherwise four trimmed, non-empty options distinct ignoring case, with the answer's index or -1 |
| LocalQuestions.KeptCount | server/questionGenerator.js:2180-2188 | the seen set and the kept list grow together |
| LocalQuestions.NearbyYears | server/questionGenerator.js:2126-2128 | the generated neighbours (±1, ±3, ±7) are years of 1000..2099 and never the year itself |
| LocalQuestions.Within | server/questionGenerator.js:2127-2127 | exactly the neighbours within 1000..2099 remain |
| LocalQuestions.Near | server/questionGenerator.js:2129-2129 | the nearby pool holds pool years at most 35 away |
| LocalQuestions.TakeDistractorsSound | server/questionGenerator.js:2134-2141 | at most three distinct texts, none the answer, each from the list; with fewer than three, every text that is not the answer was taken |
| LocalQuestions.TakeDistractorsSaturated | server/questionGenerator.js:2140-2140 | after three texts the rest of the list changes nothing (the `break`) |
| LocalQuestions.TakeDistinctTexts | server/questionGenerator.js:2134-2141 | the loop computes the distractor fold |
| LocalQuestions.YearDistractors | server/questionGenerator.js:2124-2144 | the year branch: at most three distinct texts of the ordered candidates, none the year itself, and all of them when fewer than three remain |
| LocalQuestions.NeighboursAreNotTheAnswer | server/questionGenerator.js:2126-2128 | no generated neighbour's text is the answer's |
| LocalQuestions.FirstChunk | server/questionGenerator.js:2109-2109 | `split(/[;:]/)[0]`: the longest prefix without `;` or `:` |
| LocalQuestions.LastSpaceAtOrBefore | server/questionGenerator.js:2113-2113 | `lastIndexOf(' ', from)`: the last space at or before `from` (a negative `from` counts as 0), or -1 |
| LocalQuestions.CompactSentence | server/questionGenerator.js:2103-2116 | a blank sentence gives `''`; otherwise the result is the first chunk (before `;` or `:`, trimmed, or the whole squeezed sentence when that chunk is empty) cut as `CutChunk` says, never longer than a limit of at least 3 |
| LocalQuestions.CutChunk | server/questionGenerator.js:2111-2115 | a chunk that fits is kept; a longer one becomes a prefix of it followed by `...`, cut at its last space past position 30 within the first `maxLength - 3` characters, or at `maxLength - 3` when there is no such space |
| LocalQuestions.CompactFits | server/questionGenerator.js:2109-2111 | a sentence whose first chunk fits comes back as that chunk |
| LocalQuestions.CompactPlain | server/questionGenerator.js:2103-2111 | a short sentence without `;` or `:` comes back squeezed and otherwise unchanged |
| LocalQuestions.JsRem | server/questionGenerator.js:2594-2594 | JavaScript's `%`: the remainder lies strictly between `-n` and `n` and agrees with the Euclidean one for a non-negative dividend |
| LocalQuestions.SafeOffsetIsMod | server/questionGenerator.js:2594-2594 | `((offset % n) + n) % n` is the non-negative remainder, for every sign of the offset |
| LocalQuestions.RotateFacts | server/questionGenerator.js:2592-2596 | the rotation is a permutation of the facts with `r[i] == facts[(i + offset) mod n]` |
| Quiz.Words | server/index.js:1017-1022 | the words of a text are non-empty, and a text ending in a letter or digit has at least one |
| Quiz.KeysOf | server/index.js:1024-1033 | the key set of a question list holds exactly the keys of its questions |
| Quiz.DistinctKeysSnoc | server/index.js:1024-1033 | appending a question whose key is new keeps the list's keys pairwise distinct |
| Quiz.DistinctKeysAppend | server/index.js:1024-1033 | joining two key-distinct lists whose keys do not overlap keeps the keys distinct |
| Quiz.WordsOfBracketedDigits | server/index.js:1035-1038 | the key of an emergency question text ending in `(token)` is the key of its stem followed by the token's digits |
| Quiz.WordsOfOpenDigits | server/index.js:1035-1038 | a trailing run of digits after `(` is exactly one more key word |
| Rules.Config | server/index.js:652-704 | every game mode has a positive timer scale, only turbo storm disables passing, and only a free-for-all mode gives streak bonuses |
| Rules.TeamRounds | server/index.js:792-799 | a team game has two rounds per question |
| Rules.BuildRounds | server/index.js:792-799 | the loop produces, for each question index in turn, team A's round then team B's, and every round refers to an existing question and no player |
| Rules.RoundsOf | server/index.js:803-811 | one round of a question per player |
| Rules.BuildFfaRounds | server/index.js:801-813 | the nested loop produces the free-for-all round list `FfaRounds` |
| Rules.RoundsOfAt | server/index.js:803-811 | the k-th round of a question belongs to the k-th player |
| Rules.FfaRoundCovered | server/index.js:801-813 | every pair of question index and player has its round |
| Rules.FfaRoundsCover | server/index.js:801-813 | every player gets a round on every question |
| Rules.FfaRoundsOrdered | server/index.js:801-813 | free-for-all rounds are ordered by question index |
| Rules.FfaRoundsShape | server/index.js:801-813 | there are questionCount times players rounds, all for team A, each naming one of the players and an existing question |
| Rules.RoundsOfShape | server/index.js:803-811 | the rounds of one question are team A rounds of that question naming the given players |
| Rules.CountTeam | server/index.js:837-850 | a team's population is at most the roster size |
| Rules.PlayerCount | server/index.js:826 | the non-host players are at most the roster size |
| Rules.PlayersAreTeamMembers | server/index.js:826-850 | every non-host player is in exactly one of the two teams |
| Rules.CountTeamMove | server/index.js:837-850 | moving a player to the other team takes one from its team and adds one to the other |
| Rules.CountTeamSnoc | server/index.js:837-850 | a new participant adds one to its team's and the player count exactly when it is a player |
| Rules.AssignTeam | server/index.js:852-865 | a free-for-all room always gives team A; otherwise the chosen team is never the larger one, and on a tie a duel gives A and other modes the coin |
| Rules.AssignTeamKeepsBalance | server/index.js:852-865 | assigning a newcomer narrows the gap between the teams by one, or makes it one when they were level |
| Rules.RoundDurationMs | server/index.js:923-931 | a round lasts at least one second, and at least eight in blitz; without a mode scale it is the timer in seconds times 1000, an unset (zero) timer counting as 30 s; with a scale whose product reaches one second it is exactly timer × scale |
| Rules.BlitzDuration | server/index.js:923-931 | the blitz duration is the normal duration times 0.65, rounded half up, and at least 8 s |
| Rules.DurationMonotone | server/index.js:923-931 | a longer timer setting never gives a shorter round (an unset timer counting as 30 s), and blitz never lengthens a round beyond eight seconds or its normal length |
| Rules.ReviewTimingFrom | server/index.js:568-582 | each of the three review settings takes its default when unset and the given value when inside its range, and always lies in that range |
| Rules.ReviewDelayMs | server/index.js:935-949 | the review pause is between 2600 ms and the configured `ROUND_REVIEW_MAX_MS` |
| Rules.ReviewDelayOrder | server/index.js:935-949 | timeouts and skips pause no longer than a correct answer exactly when the unadjusted delay is at least 3 s (always so for a base of 3 s or more), a pass pauses like a wrong answer, a wrong answer no shorter than a right one, and longer texts never shorten the pause |
| Rules.ScoreForAnswer | server/index.js:1247-1266 | the base is one plus the expert bonus for hard questions plus the mode bonus; without speed bonus the bonus is zero; with it the bonus is 2 exactly when at least 0.67 of the round is left and at least 1 exactly when at least 0.34 is left, and it is never outside 0..2 |
| Rules.Clamp | server/index.js:713 | the result lies in the range and equals the value when the value already does |
| Rules.SpeedBonusTiers | server/index.js:1255-1259 | answering later never gives a larger speed bonus, answering at once gives two, answering at or after the deadline gives none |
| Rules.SpeedBonusOnThirtySeconds | server/index.js:1255-1259 | on a 30 s round, 21 s left earns +2, 20 s and 11 s left earn +1, 10 s and 5 s left earn nothing |
| Rules.StreakBonus | server/index.js:1356-1364 | the streak grows by one and the bonus is at most three, none on the first correct answer |
| Rules.StreakRun | server/index.js:1356-1364 | a run of n correct answers yields n bonuses |
| Rules.StreakRunBonuses | server/index.js:1356-1364 | counting the run's answers from 0, answer k earns min(k, 3) bonus points: 0, 1, 2, 3, 3, … |
| Rules.TeamWinner | server/index.js:1394-1403 | a team game is drawn exactly on equal scores and otherwise won by the team with more points |
| Rules.TopPoints | server/index.js:1381-1386 | the top score is reached by some entry and no entry exceeds it |
| Rules.TiedAt | server/index.js:1386 | the tied list holds exactly the ids of entries with the given points |
| Rules.FfaWinner | server/index.js:1376-1392 | an empty leaderboard has no winner; otherwise the tied list is exactly the players on the top score, a winner exists exactly when one player is tied at the top, and a draw exactly when several are |
| Rules.StartCheck | server/index.js:2472-2529 | a start is accepted exactly when the caller is the host, no game is preparing or running, there are two players, a duel has one player per team and a team game has both teams populated; a non-host always gets the host error |
| Votes.TeamVoters | server/index.js:968-971 | a team's voters are exactly the players of that team, as many as its population |
| Votes.VoteEntries | server/index.js:2043-2049 | the vote entries are the team voters that voted, each with its recorded vote, and no voter that voted is missing |
| Votes.VoteEntriesSnoc | server/index.js:2043-2049 | one more voter adds its entry at the end exactly when it voted |
| Votes.CountOption | server/index.js:981-992 | an option never has more votes than there are entries |
| Votes.CountPass | server/index.js:981-992 | passes never outnumber the entries |
| Votes.CountSnoc | server/index.js:981-992 | one more entry adds one to the option it names, or to the passes when it names none |
| Votes.TallyBound | server/index.js:981-992 | passes and the four option counts together never exceed the entries |
| Votes.Counts | server/index.js:977 | the tally has one count per answer option |
| Votes.CountVote | server/index.js:984-991 | counting one more vote turns the tally of the entries so far into the tally with that vote |
| Votes.Tally | server/index.js:2056-2066 | the counting loop yields the option counts and the pass count of the entries |
| Votes.BuildSnapshot | server/index.js:973-1003 | the snapshot's total is the voter count, its submitted count the number of voters who voted, and its counts the tally of their votes |
| Votes.ReadyToFinalize | server/index.js:2149-2160 | with everyone voted the round finalises once at least one voter exists and all have voted; on timeout once anyone has voted |
| Votes.Best | server/index.js:2068 | the best count is reached by some option and no option exceeds it |
| Votes.Winners | server/index.js:2098-2101 | the winning options are exactly those with the best count, ascending and never empty |
| Votes.EarliestAmong | server/index.js:2104-2108 | the chosen entry voted for a winning option and no such entry voted earlier; on equal times the earlier voter wins |
| Votes.Decide | server/index.js:2068-2111 | a pass is decided exactly when passes beat the best option or no option got a vote; otherwise the answer has the best count and is the only winner when there is one |
| Votes.CountedHasVoter | server/index.js:981-992 | an option with votes has an entry voting for it |
| Votes.DecideTieBreak | server/index.js:2103-2111 | on a tie the decided answer is the vote of the earliest entry among those voting for a tied option |
| Votes.DecidePassRule | server/index.js:2070-2072 | a pass is decided exactly when passes beat every option or no option got a vote |
| Roster.FindSocket | server/index.js:2483 | the lookup finds a participant with that socket, and fails exactly when none has it |
| Roster.FindSocketUnique | server/index.js:2483 | with distinct sockets every participant is found at its own place |
| Roster.SetParticipant | server/index.js:2323 | setting a participant keeps sockets distinct, stores it under its socket, keeps every other participant and adds a slot only for a new socket |
| Roster.DeleteSocket | server/index.js:2737 | deleting a socket keeps exactly the participants on other sockets |
| Roster.NonHostPlayers | server/index.js:826 | the non-host list holds exactly the players, as many as the player count |
| Roster.FindPlayerById | server/index.js:2728-2730 | the lookup finds the first player with that id, and fails exactly when there is none |
| Roster.Ids | server/index.js:2544 | the id list maps each participant to its id in order |
| Roster.InsertByJoin | server/index.js:883 | inserting adds exactly one element |
| Roster.InsertByJoinSorted | server/index.js:883 | inserting into a join-sorted list keeps it sorted |
| Roster.SortByJoin | server/index.js:883 | the sort is a permutation of the list |
| Roster.SortByJoinSorted | server/index.js:883 | the sorted list is ordered by join time and has the same members |
| Roster.LastUnlocked | server/index.js:890-895 | the candidate is unlocked and no later entry is, and none is found exactly when all are locked |
| Roster.PickUnlockedCandidate | server/index.js:890-895 | the backward loop returns the last unlocked entry |
| Roster.CandidateJoinedLast | server/index.js:883-895 | in a join-sorted list the candidate joined no earlier than any other unlocked player of its team |
| Roster.RebalanceMoveSound | server/index.js:877-904 | the moved player is an unlocked member of a team at least two larger than the other, and joined last among its unlocked teammates |
| Roster.CandidateFacts | server/index.js:883-895 | the candidate picked from the sorted team list is an unlocked member of the team that joined last |
| Roster.TeamVotersSorted | server/index.js:884-887 | filtering a join-sorted list by team keeps it sorted |
| Roster.SortedTeamSizes | server/index.js:883-887 | the sorted per-team lists have the team populations as sizes |
| Roster.CountNonHost | server/index.js:826-850 | dropping the host does not change team counts |
| Roster.CountTeamInsert | server/index.js:883 | inserting a participant adds one to its team's count |
| Roster.CountTeamSorted | server/index.js:883 | sorting keeps team counts |
| Roster.MoveEffect | server/index.js:897-903 | moving a player changes only its team, keeps the seats, and shifts one from its team to the other |
| Roster.RebalanceOnlyLopsided | server/index.js:878-888 | nothing changes outside a lobby, outside a team game, in a duel, or when the teams differ by at most one |
| Roster.RebalanceEffect | server/index.js:877-904 | a rebalance moves just the candidate to the other team and narrows the gap by two |
| Roster.RebalancedKeepsSeats | server/index.js:877-904 | rebalancing never changes who sits where |
| Roster.MoveKeepsSeats | server/index.js:897-903 | moving a player never changes who sits where |
| Roster.EnsureStat | server/index.js:1275-1302 | ensuring a record adds only the player's id, keeps other records and the counters, refreshes name and team, marks it connected and not disqualified, and keeps an existing join time |
| Roster.Penalized | server/index.js:1316-1323 | a timeout adds one timeout, a pass one skip, a skip both, and nothing else changes |
| Roster.Charge | server/index.js:1312-1327 | charging a player touches only its record and applies the penalty to its counters |
| Roster.ApplyTeamPenalty | server/index.js:1312-1327 | the participant loop yields the team penalty map `TeamPenalty` |
| Roster.TeamPenaltyEffect | server/index.js:1312-1327 | after a team penalty only members of that team gain or change records, each penalised once |
| Roster.MemberOfSnoc | server/index.js:1312-1327 | a roster with distinct ids splits into its last participant and the rest without overlap |
| Roster.Credit | server/index.js:2074-2083 | a pass adds a skip; an answer adds an answer and a correct or wrong mark; points go only to voters of the rewarded answer |
| Roster.CreditOne | server/index.js:2120-2133 | crediting one vote touches only the voter's record and applies the credit to its counters |
| Roster.ApplyVoteCredits | server/index.js:2120-2133 | the entry loop yields the credited map `CreditVotes` |
| Roster.CreditVotesFrame | server/index.js:2120-2133 | only voters gain or change records |
| Roster.CreditVotesEffect | server/index.js:2120-2133 | each voter's record is credited exactly once with its own vote |
| Roster.VotedSnoc | server/index.js:2120-2133 | an entry list with distinct voters splits into its last entry and the rest without overlap |
| Roster.ApplyStatReset | server/index.js:2574-2585 | the reset loop yields `ResetStats` |
| Roster.ResetStatsEffect | server/index.js:2574-2585 | after the reset every player has a record with zero counters, connected and not disqualified |
| Roster.MarkDisconnected | server/index.js:1304-1310 | a player's existing record becomes disconnected with the leave time; no record is added and nothing else changes |
| Roster.DisconnectAll | server/index.js:2001-2003 | the disconnect loop adds no records |
| Roster.ApplyDisconnectAll | server/index.js:2001-2003 | the participant loop yields `DisconnectAll` |
| Roster.DisconnectAllEffect | server/index.js:2001-2003 | after closing every player with a record is disconnected |
| Roster.ZeroByPlayer | server/index.js:2539-2542 | the seeded map has exactly the players' ids as keys, each with zero |
| Social.RatingDelta | server/database.js:508-517 | the delta, accumulated term by term, is four per point plus six per correct answer, minus two per wrong answer and one per timeout and skip, plus thirty for a win |
| Social.WinWorthThirty | server/database.js:515 | a won game is worth exactly thirty more than the same game lost |
| Social.RatingDeltaMonotone | server/database.js:508-517 | more points or correct answers never lower the delta, more mistakes, timeouts or skips never raise it |
| Social.MaxAccuracy | server/database.js:713 | the best accuracy is at least zero and every game's, and is either zero or one of them |
| Social.Definitions | server/database.js:714-755 | there are six definitions, in the profile's key order, each with a positive target |
| Social.Evaluate | server/database.js:757-768 | progress is the value clamped into `[0, target]`: zero for a negative value, the target above it, the value itself in between; unlocked exactly when the value reaches the target, that is when progress is full |
| Social.Achievements | server/database.js:712-770 | the six achievements come in key order with their definitions' targets; each one's progress is its measured value clamped into `[0, target]`, and each is unlocked exactly when that value reaches its target |
| Social.AchievementsConsistent | server/database.js:712-770 | the veteran achievement implies the starter one, and the accuracy achievement is unlocked exactly when some game reached 80 |
| Social.NormalizeText | server/database.js:20-24 | the result is the squeezed text when it fits the limit and its first `max` characters otherwise; it is empty exactly when the limit is zero or the text is only white space |
| Social.NormalizeTextEmpty | server/database.js:20-24 | with a positive limit the result is empty exactly when the text is only white space |
| Social.NormalizeLongText | server/database.js:26 | the result is the trimmed text when it fits the limit and its first `max` characters otherwise |
| Social.NormalizeAvatar | server/database.js:28-35 | the avatar is the trimmed value, cut to 280000 characters for a data image and to 400 otherwise; nothing is cut below the limit |
| Social.SanitizeProfile | server/database.js:267-286 | first name and nickname are the normalised field when it is not blank and the normalised username otherwise; last name, activity, bio and avatar are their normalised fields; every field fits its limit; the age is kept exactly when it is between 8 and 120 |
| Social.DisplayName | server/database.js:198-205 | a non-blank nickname wins; otherwise the present first and last names, joined by a space when both are there and the one present name alone otherwise; with all blank the username; the name is empty only for an empty username |
| Social.NonEmpty | server/database.js:202 | the filtered parts are all non-empty |
| Social.FullName | server/database.js:202 | first and last name are joined by one space when both are present, otherwise the present one is used |
| Social.NonEmptyPair | server/database.js:202 | filtering two names and joining them with a space gives the full name |
| Social.MakePair | server/database.js:258-265 | the pair is the two ids in ascending order |
| Social.MakePairSymmetric | server/database.js:258-265 | the pair does not depend on the argument order |
| Social.StatusOf | server/database.js:690-702 | a user sees itself as self; two distinct signed-in users are friends exactly when their pair's row is accepted; outgoing exactly over a pending row the viewer requested |
| Social.PendingSeenFromBothSides | server/database.js:690-702 | a request one user sees as outgoing the other sees as incoming, and back |
| Social.SendRequestTable | server/database.js:839-880 | no row makes a new pending request; a request pending from the other user is accepted; a request already pending from the viewer or an existing friendship is refused with no change; a rejected row becomes pending by the viewer; only the pair's row changes |
| Social.SendFailureChangesNothing | server/database.js:839-880 | a refused request changes neither the table nor the id counter |
| Social.SendReportsNewStatus | server/database.js:839-880 | a successful request reports the status the viewer then sees |
| Social.MutualRequestsMakeFriends | server/database.js:852-873 | two users asking each other in turn become friends, seen from both sides |
| Social.SendKeepsWellFormed | server/database.js:839-880 | sending a request keeps the table well formed |
| Social.ParseAction | server/database.js:886-889 | accept and decline are recognised after trimming and lower-casing, nothing else is |
| Social.RespondRules | server/database.js:882-912 | a refused response changes nothing; an accepted one updates the one pending row with that id, to which the viewer belongs and which it did not request, to accepted or rejected as the action says |
| Social.PendingIdUnique | server/database.js:896-900 | in a well-formed table a pending request id names at most one row |
| Social.RespondKeepsWellFormed | server/database.js:882-912 | responding keeps the table well formed |
| Social.KeepAsciiAlnum | server/database.js:995 | only ASCII letters and digits survive: a clean text is unchanged and a text with none of them becomes empty |
| Social.KeepAsciiAlnumAppend | server/database.js:995 | the filter distributes over concatenation, so it keeps exactly the ASCII letters and digits, in order |
| Social.NormalizePin | server/database.js:994-997 | the pin is the first `min(10, n)` of the n kept ASCII letters and digits, each upper-cased |
| Social.NormalizePinIdempotent | server/database.js:994-997 | normalising a pin twice changes nothing more |
| Social.InviteRefusal | server/database.js:982-1001 | an invite is refused exactly when there is no session or no such user, the target is oneself, the two are not friends, or the normalised pin has fewer than 4 characters, and only with one of those five reasons |
| Social.InviteRules | server/database.js:982-1015 | a refused invite adds nothing; an accepted one appends exactly one invite from the signed-in user to a friend, with the normalised pin of four to ten characters |
| Social.FriendStore.constructor | server/database.js:839-880 | the store starts with no friendships, no invites and the first id |
| Social.FriendStore.Status | server/database.js:690-702 | the relation read from the stored table |
| Social.FriendStore.SendFriendRequest | server/database.js:839-880 | the handler updates the table and counter as `SendRequest` says, keeps the table well formed and leaves invites alone |
| Social.FriendStore.RespondFriendRequest | server/database.js:882-912 | the handler updates the table as `RespondRequest` says, keeps it well formed and leaves the counter and invites alone |
| Social.FriendStore.SendGameInvite | server/database.js:982-1015 | the handler appends invites as `SendInvite` says and leaves the friendships alone |
| Supply.FreshExtensionTrans | server/index.js:1024-1033 | two fresh extensions in a row are one fresh extension |
| Supply.LimitedFoldSound | server/index.js:1024-1033 | the limited fold appends questions of the source with new, distinct, non-empty keys, records their keys, never passes the limit, and when it stops short of the limit every keyed source question is now seen |
| Supply.PushUniqueQuestions | server/index.js:1024-1033 | the loop appends what the limited fold keeps and records its keys; the target grows only by fresh questions and never past the limit |
| Supply.SupplementPool | server/index.js:1074-1085 | the top-up pool is the fresh-key fold of team A's then team B's top-up questions over the used keys |
| Supply.FreshFilter | server/index.js:1073-1085 | one pass over the list keeps exactly what the fresh-key fold keeps, and ends with the fold's set of seen keys |
| Supply.FreshPoolSound | server/index.js:1074-1085 | the pool's keys are distinct, non-empty and not already used |
| Supply.EmergencyQuestion | server/index.js:1035-1053 | an emergency question has four options, the first correct |
| Supply.EmergencyKeyShape | server/index.js:1035-1038 | its key is the theme's stem followed by the token's digits |
| Supply.EmergencyKeyNonEmpty | server/index.js:1035-1038 | an emergency question always has a key |
| Supply.EmergencyKeyInjective | server/index.js:1035-1038 | different tokens give different keys |
| Supply.EmergencyKeyBound | server/index.js:1035-1038 | the key is longer than the token's digit count |
| Supply.Pow10 | server/index.js:1035-1038 | powers of ten are positive |
| Supply.Pow10Monotone | server/index.js:1035-1038 | powers of ten grow with the exponent |
| Supply.DecimalBelowPow10 | server/index.js:1035-1038 | a number is below ten to the power of its digit count |
| Supply.MaxLength | server/index.js:1109-1116 | no used key is longer than the maximum length |
| Supply.SkippedKeyIsOld | server/index.js:1109-1116 | a token whose key is already used, by an earlier key or by an earlier emergency question, is small enough to fit in the longest of the earlier keys, so the loop skips finitely many tokens |
| Supply.EmergencyKeysAdd | server/index.js:1109-1116 | recording a new emergency key extends the emergency key set by its token |
| Supply.FillEmergency | server/index.js:1108-1117 | the emergency loop ends, fills the list up to the required count with fresh-key questions, and never shortens it |
| Supply.EmergencyStep | server/index.js:1109-1116 | one round of the loop appends the token's question or skips a token whose key is already used, keeping the list a fresh extension |
| Supply.PushOne | server/index.js:1114-1115 | appending a question with a new, non-empty key keeps the list a fresh extension |
| Supply.ApartExtend | server/index.js:1125-1160 | extending one list with fresh keys keeps the two lists' keys apart |
| Supply.ApartSwap | server/index.js:1125-1160 | keys being apart is symmetric |
| Supply.ApartDistinct | server/index.js:1125-1160 | two lists whose keys are apart concatenate to a key-distinct list |
| Supply.ApplyFfa | server/index.js:1095-1119 | the free-for-all bank has exactly the question count, with distinct, non-empty keys |
| Supply.ApplyTeams | server/index.js:1120-1166 | each team's list has exactly the question count and no key occurs twice across both lists, none of them empty |
| RoomSpec.CurrentRound | server/index.js:906-909 | there is a current round exactly when the round index points into the round list |
| RoomSpec.Entries | server/index.js:2043-2049 | the vote entries of the current team round are all by players |
| RoomSpec.StartRound | server/index.js:1230-1245 | a round starts exactly when its question is at hand, and otherwise nothing changes; questions and history are untouched |
| RoomSpec.FindHistory | server/index.js:1944 | the lookup finds an entry with that id, and fails exactly when none has it |
| RoomSpec.Resolved | server/index.js:1853-1991 | without a current round nothing changes; otherwise the round is resolved with the given submission (or a timeout), the vote state is cleared and the review timer set; roster, rounds, status, scores and slots are untouched |
| RoomSpec.Charged | server/index.js:1861-1893 | charging a resolution touches only question statistics, team metrics and player statistics |
| RoomSpec.EntryFor | server/index.js:1921-1943 | the history entry carries the round number, an id built from it, and the final submission |
| RoomSpec.Recorded | server/index.js:1895-1990 | a resolution stores the submission, clears the votes and the deadline, inserts or replaces the round's history entry and sets the review timer |
| RoomSpec.VoteOutcome | server/index.js:2068-2146 | finalising a team vote changes only the scores and the player statistics before the round resolves |
| RoomSpec.Decided | server/index.js:2032-2147 | deciding a team round changes only scores and player statistics before the resolution |
| RoomSpec.FfaCredited | server/index.js:2904-2957 | a free-for-all pass or answer changes only the player's statistic, score and streak; the round is correct exactly for an answer equal to the correct index, and a wrong answer scores nothing |
| RoomSpec.StartHostGrace | server/index.js:1680-1698 | the host's socket is dropped and a 90 s deadline set; a running game pauses and keeps the time left |
| RoomSpec.StartPlayerGrace | server/index.js:1700-1730 | a player with a rejoin key gets a 60 s slot holding its record without a socket; without a key nothing changes |
| RoomSpec.Depart | server/index.js:2976-2977 | leaving removes the socket's entry and changes no game progress, registration or slot |
| RoomSpec.Disqualify | server/index.js:2736-2750 | a kicked player's entry, score and slot go, with no change to game progress |
| RoomSpec.DropSlot | server/index.js:1665-1671 | only the given slot is removed |
| RoomSpec.Rebalance | server/index.js:877-904 | rebalancing changes only the roster and keeps sockets distinct |
| RoomSpec.Settle | server/index.js:2782-2784 | a settle either finalises the team round or changes nothing; roster, registration, slots and player scores are untouched |
| RoomSpec.Emptied | server/index.js:3031-3059 | a room stays registered exactly when someone is left, or when rejoin slots may hold it and some are open |
| RoomSpec.SanitizeName | server/index.js:2017-2023 | a sanitised name is `Игрок` when the squeezed input is empty, and otherwise the squeezed input when it fits 24 characters and its first 24 characters when not |
| RoomSpec.NormalizeRejoinKey | server/index.js:2025-2030 | the key is the trimmed input exactly when that is 12 to 120 letters, digits, `_` or `-`, and empty otherwise |
| RoomSpec.Restored | server/index.js:2309-2322 | rejoining restores the slot's participant on the new socket and removes the slot, with no change to game progress |
| RoomSpec.Admitted | server/index.js:2323-2370 | an admitted player is set on its socket, its old slot dropped and the lobby rebalanced |
| RoomSpec.Join | server/index.js:2295-2379 | a refused join changes nothing; a rejoin happens exactly for a held key; a plain join is accepted exactly when the room is a registered lobby, the password matches and a duel has a free seat, and then admits the new player |
| RoomSpec.NewPlayer | server/index.js:2323-2369 | a new player sits on its socket with id `p-` and the socket, joined now, unlocked, on the assigned team, with its key or a generated one; its name is the given one, or that name followed by `-` and the suffix when another player already has it ignoring case |
| RoomSpec.UnresolvedHasNoEntry | server/index.js:1944-1949 | an unresolved current round has no history entry yet |
| RoomSpec.ResolvedKeepsValid | server/index.js:1853-1991 | resolving an unresolved round keeps the room valid, marks the round resolved and appends exactly one history entry |
| RoomSpec.RecordedKeepsValid | server/index.js:1895-1949 | recording appends the round's entry and keeps the room valid |
| RoomSpec.NoDoubleResolution | server/index.js:2033 | once a round is resolved no vote finalisation, answer, host skip or tick changes the room again |
| RoomSpec.AdvanceOutcome | server/index.js:1824-1851 | after the last round the game finishes now; otherwise the next round starts now with a full deadline when its question is at hand, or the room pauses with a full round kept |
| RoomSpec.FinishKeepsValid | server/index.js:1806-1822 | finishing keeps the room valid |
| RoomSpec.NextRoundKeepsValid | server/index.js:1830-1836 | moving to the next round keeps the room valid |
| RoomSpec.StartRoundKeepsValid | server/index.js:1230-1245 | starting a round keeps the room valid |
| RoomSpec.ParkKeepsValid | server/index.js:1838-1848 | pausing a round without its question keeps the room valid |
| RoomSpec.AdvanceKeepsValid | server/index.js:1824-1851 | advancing keeps the room valid |
| RoomSpec.VoteOutcomeKeepsValid | server/index.js:2068-2146 | a team vote outcome keeps the room valid |
| RoomSpec.FinalizeVotesKeepsValid | server/index.js:2032-2147 | finalising votes keeps the room valid and either changes nothing or resolves the unresolved round with one history entry |
| RoomSpec.FinalizeIfReadyGate | server/index.js:2149-2160 | finalisation happens only in an unresolved team round, once every voter voted, or on timeout once anyone voted |
| RoomSpec.FinalizeIfReadyResolves | server/index.js:2149-2160 | a finalisation always resolves the round and clears the votes |
| RoomSpec.FinalizeIfReadyKeepsValid | server/index.js:2149-2160 | finalising when ready keeps the room valid and resolves at most once |
| RoomSpec.FinalizeIfReadyFrame | server/index.js:2149-2160 | finalising never changes roster, status, registration, slots, player scores, host socket or round position |
| RoomSpec.VoteOutcomeScores | server/index.js:2068-2146 | only the voting team's score grows, by the round's points; the round is a pass exactly when the vote decided a pass, otherwise it carries the decided answer; it is correct exactly for the correct index and then scores the answer's points |
| RoomSpec.TeamScoreNeverDecreases | server/index.js:2032-2147 | finalising never lowers a team's score, and raises it only for a correct answer of that team's round, by its points |
| RoomSpec.ValidTransfer | server/index.js:1853-1991 | a state with the same progress and distinct sockets is valid when the original is |
| RoomSpec.RebalancedDistinct | server/index.js:877-904 | rebalancing keeps sockets distinct |
| RoomSpec.CreatedValid | server/index.js:2196-2293 | a new room is valid |
| RoomSpec.DepartKeepsValid | server/index.js:2961-3063 | removing a socket's entry keeps the room valid |
| RoomSpec.CloseRoomKeepsValid | server/index.js:1993-2010 | closing keeps the room valid |
| RoomSpec.SkipRoundKeepsValid | server/index.js:2162-2194 | a host skip keeps the room valid |
| RoomSpec.TogglePauseKeepsValid | server/index.js:2597-2643 | pausing and resuming keep the room valid |
| RoomSpec.SubmitFfaKeepsValid | server/index.js:2904-2957 | a free-for-all submission keeps the room valid |
| RoomSpec.SubmitVoteKeepsValid | server/index.js:2875-2901 | a team vote keeps the room valid |
| RoomSpec.SubmitAnswerKeepsValid | server/index.js:2825-2959 | every answer submission keeps the room valid |
| RoomSpec.TickKeepsValid | server/index.js:3066-3091 | the tick keeps the room valid |
| RoomSpec.FireTransitionKeepsValid | server/index.js:1987-1990 | the review timer keeps the room valid |
| RoomSpec.ExpiriesKeepValid | server/index.js:1680-1730 | the expiry of host grace or a player slot keeps the room valid |
| RoomSpec.SettleKeepsValid | server/index.js:2782-2784 | settling keeps the room valid |
| RoomSpec.StartHostGraceKeepsValid | server/index.js:1680-1698 | starting the host grace keeps the room valid |
| RoomSpec.KickedKeepsValid | server/index.js:2736-2789 | a kick's aftermath keeps the room valid |
| RoomSpec.KickKeepsValid | server/index.js:2703-2789 | a kick keeps the room valid |
| RoomSpec.RemainingKeepsValid | server/index.js:2990-3006 | what follows a departure keeps the room valid |
| RoomSpec.LeaveKeepsValid | server/index.js:2961-3009 | leaving keeps the room valid |
| RoomSpec.LeftKeepsValid | server/index.js:2980-3006 | the aftermath of leaving keeps the room valid |
| RoomSpec.DisconnectedKeepsValid | server/index.js:3020-3062 | the aftermath of a lost connection keeps the room valid |
| RoomSpec.DisconnectKeepsValid | server/index.js:3011-3063 | a lost connection keeps the room valid |
| RoomSpec.JoinKeepsValid | server/index.js:2295-2379 | joining keeps the room valid |
| RoomSpec.HostRejoinKeepsValid | server/index.js:2439-2470 | a host rejoin keeps the room valid |
| RoomSpec.SwitchTeamKeepsValid | server/index.js:2381-2437 | switching team keeps the room valid |
| RoomSpec.StartGameKeepsValid | server/index.js:2472-2530 | starting a game keeps the room valid |
| RoomSpec.CompleteStartKeepsValid | server/index.js:2532-2594 | completing the start, or failing it, keeps the room valid |
| RoomSpec.Advance | server/index.js:1824-1851 | advancing ends finished, running or paused, with no review timer, and keeps the plan, the questions, the roster, the history and the slots |
| RoomSpec.FinalizeVotes | server/index.js:2032-2147 | a team vote is finalised exactly when the room is finalisable; otherwise nothing changes; a finalisation stores a submission, clears the votes and sets the review timer, never touching roster, status, slots or player scores |
| RoomSpec.FinalizeIfReady | server/index.js:2149-2160 | it finalises only when ready and finalisable, otherwise changes nothing; a finalisation stores a submission and clears the votes |
| RoomSpec.SkipByHost | server/index.js:2162-2194 | a host skip succeeds exactly for a running or paused round with no submission and with its question; it then runs with a skip submission in the host's name; a refusal changes nothing |
| RoomSpec.SkipRound | server/index.js:2645-2701 | an unknown room and a socket that is not the host's are refused with no change; a skip that succeeds leaves a running round with a skip submission |
| RoomSpec.TogglePause | server/index.js:2597-2643 | the host may pause a running round, keeping `max(0, deadline − now)`, or resume a paused round that has its question, with the deadline at now plus the kept time (the full duration when none or zero was kept); anything else is refused with no change |
| RoomSpec.SubmitFfa | server/index.js:2904-2957 | a free-for-all answer or pass resolves the current round in the player's name, correct exactly for an answer equal to the correct index; roster, status, team scores and slots stay |
| RoomSpec.SubmitVote | server/index.js:2875-2901 | a vote is refused, with no change, exactly when the member already voted in this team round; an accepted vote is either held in the vote state or completes the team and resolves the round |
| RoomSpec.SubmitAnswer | server/index.js:2825-2959 | an accepted answer needs a registered running room whose round has its question and no submission yet; conversely a player whose turn it is (of the round's team and not yet voted, or the round's own player) with an option from 0 to 3 or an allowed pass is accepted; a refusal changes nothing; roster and status stay |
| RoomSpec.Tick | server/index.js:3066-3091 | a room whose deadline has not passed is unchanged; a due round gets a submission; roster and status stay |
| RoomSpec.FireTransition | server/index.js:1987-1990 | before its due time the review timer changes nothing; at or after it the timer is cleared and the game advances to finished, running or paused |
| RoomSpec.CloseRoom | server/index.js:1993-2010 | a closed room is unregistered with no slots, timers or host deadline, and keeps its roster, status, history and scores |
| RoomSpec.ExpireHostGrace | server/index.js:1680-1698 | at or after the host's deadline the room closes and its slots go; before it nothing changes |
| RoomSpec.ExpirePlayerSlot | server/index.js:1700-1730 | at or after its deadline only that player's slot is removed; before it nothing changes |
| RoomSpec.Kick | server/index.js:2703-2789 | a kick succeeds exactly for the host's socket and a trimmed target id that is neither empty nor `host` and names a player; an empty or `host` id is a bad target; a refusal changes nothing |
| RoomSpec.Kicked | server/index.js:2736-2785 | a kick's aftermath keeps registration, slots, status and player scores; the roster is the rebalanced one in the lobby and unchanged otherwise |
| RoomSpec.Remaining | server/index.js:2990-3006 | after a departure the room is dropped only when nobody is left and no slot holds it; roster and slots stay |
| RoomSpec.Leave | server/index.js:2961-3009 | leaving an unknown room changes nothing; the host leaving closes the room; a leaving player's rejoin slot is removed |
| RoomSpec.Left | server/index.js:2980-3006 | after the host leaves the room is closed with no slots; after a player leaves the slots stay |
| RoomSpec.Disconnect | server/index.js:3011-3063 | the host's lost connection keeps the room, drops the host socket, sets the 90 s deadline and pauses a running game |
| RoomSpec.Disconnected | server/index.js:3020-3062 | a lost host pauses a running game; a player with a key who drops during a game keeps a slot holding its record without a socket |
| RoomSpec.HostRejoin | server/index.js:2439-2470 | a host rejoin succeeds exactly for a registered room with no host connected and a trimmed key equal to the room's; the host is then on the new socket with no deadline, and status and kept time are unchanged; a refusal changes nothing |
| RoomSpec.SwitchTeam | server/index.js:2381-2437 | a switch is accepted exactly for a player of a registered team lobby naming a team, unless in a duel another player already sits in that team, which is refused as a taken seat; the mover alone changes, to the target team and locked there, with its statistic ensured; a player already in the team changes nothing |
| RoomSpec.StartGame | server/index.js:2472-2566 | a start succeeds exactly when the room is registered and the start checks pass; the room is then preparing before its first round, with the plan built from the players, no history, slots or host deadline |
| RoomSpec.CompleteStart | server/index.js:2532-2594 | outside preparing nothing changes; a failed generation returns the room to the lobby; otherwise the generated bank and sets are installed and the game is running, paused or finished with the roster kept |
| RoomProps.PauseResumeKeepsRemaining | server/index.js:2597-2643 | pausing then resuming a running round gives the round back the time that was left when paused, or a full round when none was left |
| RoomProps.HostGraceThenRejoin | server/index.js:1680-1698 | a host losing connection in a running game pauses it with a 90 s deadline and the time left kept; rejoining with the host key restores the host, still paused with the same time left |
| RoomProps.HostDropPauses | server/index.js:1680-1698 | the host's drop in a running game keeps the room valid and registered, pauses it with the time left kept, drops the host socket and sets the 90 s deadline |
| RoomProps.HostKeyRejoins | server/index.js:2439-2470 | while no host is connected, the room's host key with white space around it is accepted: the host is back on the new socket, the deadline cleared, status and time left unchanged |
| RoomProps.HostGraceExpires | server/index.js:1680-1698 | the grace timer closes the room once 90 s have passed, and before that leaves it as it was |
| RoomProps.PlayerRejoinRestores | server/index.js:1700-1730 | a player with a rejoin key who loses connection during a game leaves a slot; rejoining with that key restores the same record on the new socket and removes the slot |
| RoomProps.DisconnectedKeepsSlot | server/index.js:3011-3063 | a keyed player's lost connection during a game keeps the room and stores a 60 s slot for it |
| RoomProps.KickOutcome | server/index.js:2703-2789 | a refused kick changes nothing; a kick needs the host, a trimmed target id other than empty or `host`, and a player with that id, and leaves that player without seat, score or slot |
| RoomProps.KickedRemoves | server/index.js:2752-2785 | the kick's aftermath never brings the removed player back |
| RoomProps.JoinKeepsTeamsBalanced | server/index.js:2295-2379 | in a team game that is not a duel, a join into balanced teams adds one seat and leaves the teams balanced |
| RoomProps.AdmittedKeepsBalance | server/index.js:2323-2370 | admitting a player on its assigned team keeps the teams within one of each other |
| RoomProps.StartGameOutcome | server/index.js:2472-2565 | a start succeeds exactly when the room exists and the start checks pass; otherwise nothing changes; on success the room is preparing, reconnect slots are cleared, the round plan is built, scores, history and statistics are reset and every player has a zero score |
| RoomProps.PlanLength | server/index.js:2543-2548 | a free-for-all game has questionCount rounds per player, a team game two per question |
| RoomProps.SubmitAnswerGuards | server/index.js:2825-2959 | a refused submission changes nothing; an accepted one comes from a player of a running, unresolved round with its question, of the round's team or the round's own player, passes only where passing is enabled, and otherwise names an option from 0 to 3; a free-for-all submission resolves the round |
| RoomProps.SubmitFfaResolves | server/index.js:2904-2957 | a free-for-all answer or pass always resolves the round |
| RoomProps.TickOnlyAfterDeadline | server/index.js:3066-3091 | the tick changes a room only when it is running, unresolved and past its deadline, and then always resolves the round |
| Rooms.Room.constructor | server/index.js:2196-2293 | a created room holds the lobby state of `host:createRoom` with the host seated, and is valid |
| Rooms.Room.FinishGame | server/index.js:1806-1822 | the fields become the finished state `FinishGame` |
| Rooms.Room.StartClock | server/index.js:1235-1240 | the round's clock starts now with a full deadline, the room runs and the vote state is fresh |
| Rooms.Room.StartCurrentRoundIfReady | server/index.js:1230-1245 | the fields and the result are those of `StartRound` |
| Rooms.Room.AdvanceRound | server/index.js:1824-1851 | the fields become `Advance` of the old state |
| Rooms.Room.MoveToNextRound | server/index.js:1830-1835 | the round index moves on and the round's clock is cleared |
| Rooms.Room.Park | server/index.js:1847-1848 | the room pauses with a full round kept |
| Rooms.Room.ApplyRoundPenaltyStats | server/index.js:1329-1347 | only the player statistics change, as the round penalty says |
| Rooms.Room.CountOutcome | server/index.js:1861-1893 | the fields become `Charged` of the old state |
| Rooms.Room.StoreResolution | server/index.js:1895-1897 | the submission, streaks, history and review timer are stored and the votes and deadline cleared |
| Rooms.Room.RecordResolution | server/index.js:1895-1990 | the fields become `Recorded` of the old state |
| Rooms.Room.ResolveRound | server/index.js:1853-1991 | the fields become `Resolved` of the old state |
| Rooms.Room.CreditTeamVotes | server/index.js:2113-2133 | the fields and the submission are those of `VoteOutcome` |
| Rooms.Room.FinalizeTeamRoundFromVotes | server/index.js:2032-2147 | the fields and the result are those of `FinalizeVotes` |
| Rooms.Room.FinalizeTeamRoundIfReady | server/index.js:2149-2160 | the fields and the result are those of `FinalizeIfReady` |
| Rooms.Room.SkipRoundByHost | server/index.js:2162-2194 | the fields and the reply are those of `SkipByHost` |
| Rooms.Room.SkipRound | server/index.js:2645-2701 | the fields and the reply are those of `SkipRound`, and the room stays valid |
| Rooms.Room.TogglePause | server/index.js:2597-2643 | the fields and the reply are those of `TogglePause`, and the room stays valid |
| Rooms.Room.SubmitFfa | server/index.js:2904-2957 | the fields become `SubmitFfa` of the old state |
| Rooms.Room.SubmitVote | server/index.js:2875-2901 | the fields and the reply are those of `SubmitVote` |
| Rooms.Room.SubmitAnswer | server/index.js:2825-2959 | the fields and the reply are those of `SubmitAnswer`, and the room stays valid |
| Rooms.Room.Tick | server/index.js:3067-3090 | the fields become `Tick` of the old state |
| Rooms.Room.FireTransition | server/index.js:1987-1990 | the fields become `FireTransition` of the old state, and the room stays valid |
| Rooms.Room.CloseRoom | server/index.js:1993-2010 | the fields become `CloseRoom` of the old state |
| Rooms.Room.ExpireHostGrace | server/index.js:1680-1698 | the fields become `ExpireHostGrace` of the old state, and the room stays valid |
| Rooms.Room.ExpirePlayerSlot | server/index.js:1700-1730 | the fields become `ExpirePlayerSlot` of the old state, and the room stays valid |
| Rooms.Room.StartHostGrace | server/index.js:1680-1698 | the fields become `StartHostGrace` of the old state |
| Rooms.Room.StartPlayerGrace | server/index.js:1700-1730 | the fields become `StartPlayerGrace` of the old state |
| Rooms.Room.Depart | server/index.js:2976-2977 | the fields become `Depart` of the old state |
| Rooms.Room.Disqualify | server/index.js:2736-2750 | the fields become `Disqualify` of the old state |
| Rooms.Room.DropSlot | server/index.js:1665-1671 | the fields become `DropSlot` of the old state |
| Rooms.Room.RebalanceTeamsIfNeeded | server/index.js:877-904 | the fields become `Rebalance` of the old state |
| Rooms.Room.Settle | server/index.js:2782-2784 | the fields and the result are those of `Settle` |
| Rooms.Room.Kicked | server/index.js:2752-2785 | the fields become `Kicked` of the old state |
| Rooms.Room.Kick | server/index.js:2703-2789 | the fields and the reply are those of `Kick`, and the room stays valid |
| Rooms.Room.Emptied | server/index.js:3031-3059 | the fields become `Emptied` of the old state |
| Rooms.Room.Remaining | server/index.js:2990-3006 | the fields become `Remaining` of the old state |
| Rooms.Room.Left | server/index.js:2980-3006 | the fields become `Left` of the old state |
| Rooms.Room.Leave | server/index.js:2961-3009 | the fields become `Leave` of the old state, and the room stays valid |
| Rooms.Room.Disconnected | server/index.js:3020-3062 | the fields become `Disconnected` of the old state |
| Rooms.Room.Disconnect | server/index.js:3011-3063 | the fields become `Disconnect` of the old state, and the room stays valid |
| Rooms.Room.RestorePlayer | server/index.js:2309-2322 | the fields become `Restored` of the old state |
| Rooms.Room.Admit | server/index.js:2323-2370 | the fields become `Admitted` of the old state |
| Rooms.Room.Join | server/index.js:2295-2379 | the fields and the reply are those of `Join`, and the room stays valid |
| Rooms.Room.HostRejoin | server/index.js:2439-2470 | the fields and the reply are those of `HostRejoin` (host key compared after trimming), and the room stays valid |
| Rooms.Room.SwitchTeam | server/index.js:2381-2437 | the fields and the reply are those of `SwitchTeam`, and the room stays valid |
| Rooms.Room.MoveToTeam | server/index.js:2381-2437 | the player moves to the team, locked there, and its statistic is ensured |
| Rooms.Room.Prepare | server/index.js:2526-2528 | grace timers and slots are cleared and the room is preparing |
| Rooms.Room.ClearQuestions | server/index.js:2533-2542 | question sets are emptied and scores and streaks seeded with zeros |
| Rooms.Room.ResetRounds | server/index.js:2543-2555 | the round plan is installed before its first round, with no clock, submission or votes |
| Rooms.Room.ResetResults | server/index.js:2556-2566 | history, finish time, scores, team metrics, question and player statistics are reset |
| Rooms.Room.StartGame | server/index.js:2472-2566 | the fields and the reply are those of `StartGame`, and the room stays valid |
| Rooms.Room.InstallQuestions | server/index.js:1118-1119 | the generated bank and team sets are installed |
| Rooms.Room.CompleteStart | server/index.js:2570-2594 | the fields become `CompleteStart` with the built questions; a free-for-all game gets a bank of questionCount questions, a team game two sets of questionCount, all with distinct keys, and the room stays valid |
| Rooms.Registry.Tick | server/index.js:3066-3091 | every room of the registry takes its own `Tick` step |

## Left out

- Socket.io and Express plumbing (`io.on`, callbacks, `emitRoomState`, the REST routes) is left out because it only carries messages. Each handler is modelled as a step that returns an ok/error `Reply` together with the new state.
- The `host:exportResults` file export, SQLite, password hashing, session tokens and crypto are left out because they are storage side effects. `getSessionUser` and `getUserByName` become `Option<int>` arguments of the `Social.FriendStore` methods.
- Timers (`setTimeout`/`setInterval`, the grace timers, the transition timer, `withTimeout`) are left out because they depend on the clock. Time is an explicit `now` argument, and each timer firing is an explicit step: `FireTransition`, `ExpireHostGrace`, `ExpirePlayerSlot` and the registry-level `Tick`.
- Asynchronous question generation is left out because it does I/O. Its outcome (failure, or the generated sets) becomes the input of `RoomSpec.CompleteStart` / `Rooms.Room.CompleteStart`.
- Network I/O is left out: Wikipedia search and extracts, the AI provider requests, the GigaChat token flow, image lookup, and the JSON parsing of model replies. Only the deterministic list, record and cache logic around them is modelled.
- Concurrency (`runWithConcurrency`, `Promise.all`) is left out. Every handler is one atomic step, as on Node's single-threaded event loop.
- Randomness is left out as a source of choices: the coin in `assignTeam`, generated pins, keys and suffixes, `shuffle` and `randomFrom`. Each random value is an explicit argument.
- Floating point is replaced by exact integer arithmetic, so values at a boundary may differ from the double computation:
  - timer multipliers and the blitz factor are in permille;
  - the 0.67/0.34 speed thresholds are compared as `100·remaining ≥ 67·total`;
  - `Math.round` is taken as halving up on non-negative values.
- `Number()` coercion of payload fields is not modelled: inputs arrive already typed.
- The regex/Unicode text heuristics are left out: `isSentenceClean`, `buildFacts`, candidate extraction, `includesSignal`, `scriptRatios` and `scoreQuestionQuality`. The quality score is an input of `Generator.PickTopQuestions`.
- Quiz.Words: the letters of `questionUniqKey` are approximated by ASCII and Cyrillic letters, because Dafny has no Unicode letter classes.
- LocalQuestions.YearDistractors: of `buildDistractors` only the year branch is modelled. The other branches draw from text heuristics and random shuffles, which are left out.
- Client.SummarizeHistory: of `finalSummary`, only the counters and the accuracy are modelled. It does not compute `avgResponseSeconds` (a float), `fastestCorrect`, `bestPlayer` (locale-aware sort), `expectedRounds` or the rosters.
- Client.TrimLine: for `max < 1` the result is not constrained, because the JavaScript `slice` with a negative end takes characters from the end.
- Generator.GetDifficulty: its own contract covers only the fixed modes. The mixed-mode curve is stated by the lemmas `DifficultyNonDecreasing` and `DifficultyEnds`.
- Text.IsSpace, Text.LowerChar and Text.UpperChar: white space is the ASCII, Latin-1 and line-separator subset of `\s` (not U+1680, U+2000–U+200A, U+202F, U+205F, U+3000), and case mapping covers only ASCII and Cyrillic, so keys of prompts in other scripts (Greek, say) that `toLowerCase()` would merge stay distinct.
- Text lengths: Dafny counts code points where JavaScript's `.length` and `.slice` count UTF-16 code units, so for characters outside the Basic Multilingual Plane (emoji) the bounds of `RoomSpec.SanitizeName` (24), `Generator.NormalizeQuestion` (16/240/180/320), `Generator.NormalizeTheme` (120) and `Client.TrimLine` count differently.
- Type declarations in `client/src/types.ts`, React rendering, audio, localStorage and date formatting are left out: they hold no logic to verify.

Behaviour a reader may not expect, which the model keeps as the code has it:

- The speed bonus tier is computed from the *remaining* fraction of the round, with thresholds 0.67 and 0.34 rather than 2/3 and 1/3. A correct answer with 5 s left of 30 s therefore earns no tier bonus.
- A host who rejoins within the grace window gets the room back, but the game stays paused. Resuming is left to `host:togglePause`.
- Lobby rebalancing moves at most one player per call.
- In FFA the "fewer than two players" start check can never fire, because the preceding check already requires at least two players.
- An FFA pass counts two skips for the player: one for the pass and one from the round penalty. In teams, each passing voter gets a skip from their own vote, and there is one more from the team penalty.
- When the answering FFA player is kicked, the round times out and is recorded as a wrong answer, with no penalty charged.
- `host:nextRound` behaves exactly like `host:skipRound`.
- `CompleteStart` changes nothing unless the room is still `Preparing`.
- The deadline tick walks over the registry of all rooms rather than one room.
- `pickTopQuestions` still returns one item when asked for zero and a fresh item exists, because its loop tests the count only after pushing. Every caller asks for at least one.

## Findings

| source | as written | input that shows it | evidently intended | confidence | as-written member | corrected member |
|---|---|---|---|---|---|---|
| client/src/App.tsx:534-544 | `getInitials` falls back to `'??'` only when `split` returns no parts, and `split` always returns at least one | a blank or whitespace-only name, which yields `""` | `'??'` for a name with no visible character | not executed | Client.InitialsAsWritten (with Client.BlankNameHasNoInitials) | Client.Initials (with Client.InitialsAgreeOnNames) |
