# Samvaad priority engine, translator, sanitiser and message quota in Dafny

This project models the core of the Samvaad app, which helps people prepare for marriage
conversations. The user answers a 20-question assessment over six dimensions: family,
career, finances, lifestyle, values and intimacy. The app then does the following:

- **Scoring.** Each answer letter is worth A=3, B=2, C=1 or D=0 points. Each of the five
  profiled dimensions gets the average over its answered questions. The average becomes a
  priority: `high` from 2.0, `medium` from 1.0, and `flexible` below that.
- **Question selection.** A list of questions to ask a prospective partner is taken from a
  28-entry output bank. The rules per dimension:
  - A `high` dimension gets its whole section.
  - A `medium` dimension gets its essential entries and then the first two high-tagged ones.
  - Anything else gets only the essential entries.

  The dimension blocks are stably ordered high, then medium, then flexible. Duplicate ids
  are removed, keeping the first occurrence. The first 7 questions are free and the rest
  are locked.
- **Translator.** Dotted-key lookup in a nested locale tree. A key that is missing, or that
  names a subtree, falls back to the key itself. Then a single-pass `{{word}}`
  interpolation is applied.
- **Chat sanitiser.** A message is trimmed. It is then refused as empty, then as longer
  than 700 characters, then as matching an injection pattern. Otherwise it is safe.
- **Persistence.**
  - Device storage has eight settings with per-key defaults and two clear operations.
  - A per-user cloud document has ten fields. Reads use per-field defaults and writes are
    merged: a non-empty object is merged key by key into a stored object, and any other
    value, the empty object included, replaces the field. `clearAll` keeps `retakeCount`
    and `isPremium`; `clearAssessment` resets five fields.
  - A daily message counter `{date, count}` resets on a new day. The client allows 7
    messages a day.
- **Server proxy.** `callGemini` requires sign-in and a `contents` array; a call with no
  argument at all fails as an internal error. It refuses a free user who has sent 5
  messages today. It counts a message only after the upstream model answers with a
  non-null body, and never counts or limits premium users.

Modules:

| module | what it models |
|---|---|
| `Options` | `Option`, standing for `undefined` / a value |
| `Seqs` | order-preserving `filter`, concatenation of blocks, `slice`, pairwise properties |
| `AssessmentBank` | `src/data/assessmentQuestions.ts`: dimensions, the 20 questions (ids, dimensions, option letters and points) |
| `OutputBank` | `src/data/outputQuestions.ts`: the 28 output entries (id, dimension, tag) and its queries |
| `Scoring` | `src/utils/scoring.ts` |
| `QuestionSelector` | `src/utils/questionSelector.ts` |
| `I18n` | `src/utils/i18n.ts` |
| `Sanitize` | `src/utils/api/sanitize.ts` |
| `Json` | JSON values as stored, and the `{date, count}` counter record |
| `Storage` | `src/utils/storage.ts` |
| `Firestore` | `src/utils/firestore.ts` |
| `GeminiProxy` | the quota and counting logic of `callGemini` in `functions/src/index.ts` |

Some things are parameters rather than part of the model:

- The current IST calendar day is a string parameter `today`.
- The injection regular expressions are a sequence of predicates on the trimmed text.
- A device-storage slot is either a parsed value or `Unreadable`, which stands for a failed
  read or unparsable text.
- Whether a cloud read or write succeeds is a boolean parameter.
- The upstream model call is a parameter: it either fails or gives a response body.

JSON serialisation is the identity.

Where the code and its tests disagree, the model follows the code:

- `FREE_QUESTION_COUNT` is 7 in `src/utils/questionSelector.ts:12`. The tests in
  `src/utils/questionSelector.test.ts:303` expect 10.
- The profile and the score map cover five dimensions (`src/utils/scoring.ts:70`, `:96-102`).
  The tests in `src/utils/scoring.test.ts:7-14` also expect an `intimacy` key.
- The daily limit is 7 on the client (`src/utils/storage.ts:75`, `src/utils/firestore.ts:172`)
  and 5 on the server (`functions/src/index.ts:13`). Both constants are modelled where they
  are used.

The cloud store's `canSendMessage` and `getRemainingMessages` (`src/utils/firestore.ts:170-178`)
read the same device-cache key as the device store's (`@samvaad_dailyMessageCount`). They
compute the same thing, so both are modelled by `Storage.CanSendMessage` and
`Storage.GetRemainingMessages` over the cache.

## Model

| member | source | states |
|---|---|---|
| AssessmentBank.QuestionsByDimension | src/data/assessmentQuestions.ts:684-686 | every question returned belongs to the requested dimension |
| AssessmentBank.QuestionsByDimensionInBank | src/data/assessmentQuestions.ts:684-686 | the questions of a dimension are all bank questions |
| AssessmentBank.QuestionsByDimensionIsSlice | src/data/assessmentQuestions.ts:684-686 | filtering the bank by a dimension gives exactly that dimension's contiguous block, in bank order |
| AssessmentBank.FindInfo | src/data/assessmentQuestions.ts:689-691 | `find` succeeds iff some entry has the id, and then returns the first such entry |
| AssessmentBank.DimensionInfoTotal | src/data/assessmentQuestions.ts:29-51 | dimension metadata exists for all six dimensions and carries the requested id |
| AssessmentBank.BankCounts | src/data/assessmentQuestions.ts:54-681 | 20 questions: family 3, career 3, finances 3, lifestyle 4, values 4, intimacy 3 |
| AssessmentBank.BankIdsDistinct | src/data/assessmentQuestions.ts:54-681 | question ids are pairwise distinct |
| Scoring.OptionsAgreeWithAnswerPoints | src/data/assessmentQuestions.ts:54-681 | every question offers A, B, C, D in that order, and each option's points equal the scorer's points for its letter |
| OutputBank.TotalOutputQuestions | src/data/outputQuestions.ts:457 | the output bank has 28 entries |
| OutputBank.QuestionsByDimension | src/data/outputQuestions.ts:443-445 | every entry returned has the requested dimension |
| OutputBank.QuestionsByDimensionInBank | src/data/outputQuestions.ts:443-445 | every entry returned is a bank entry |
| OutputBank.QuestionsByDimensionIsSection | src/data/outputQuestions.ts:443-445 | the order-preserving filter by dimension is exactly that dimension's section (empty for intimacy) |
| OutputBank.EssentialQuestions | src/data/outputQuestions.ts:450-454 | the result holds exactly the bank's essential entries of the dimension |
| OutputBank.EssentialIsFilterOfDimension | src/data/outputQuestions.ts:450-454 | the essential entries are the order-preserving essential filter of the dimension's entries |
| OutputBank.BankIdsDistinct | src/data/outputQuestions.ts:21-438 | output ids are pairwise distinct |
| OutputBank.IdDeterminesEntry | src/data/outputQuestions.ts:21-438 | two bank entries with the same id are the same entry |
| OutputBank.NoIntimacyEntries | src/data/outputQuestions.ts:21-438 | no output entry belongs to intimacy |
| OutputBank.FamilyTags | src/data/outputQuestions.ts:25-113 | family entries 1 and 3 are essential; entries 2, 4, 5 and 6 are high |
| OutputBank.CareerTags | src/data/outputQuestions.ts:118-188 | career has 2 essential and 3 high entries, at the positions listed |
| OutputBank.FinancesTags | src/data/outputQuestions.ts:193-264 | finances has 2 essential and 3 high entries, at the positions listed |
| OutputBank.LifestyleTags | src/data/outputQuestions.ts:269-348 | lifestyle has 2 essential and 4 high entries, at the positions listed |
| OutputBank.ValuesTags | src/data/outputQuestions.ts:353-437 | values has 3 essential and 3 high entries, alternating |
| OutputBank.DimensionCounts | src/data/outputQuestions.ts:21-438 | 28 entries; each dimension's entries split into its essential count plus its high count |
| Scoring.AnswerPoints | src/utils/scoring.ts:12-17 | a letter is worth 0 to 3 points, 3 exactly for A and 0 exactly for D |
| Scoring.TallyBounds | src/utils/scoring.ts:35-44 | the answered count is at most the number of questions, and the points total is between 0 and 3 times the answered count |
| Scoring.MeanFacts | src/utils/scoring.ts:46-48 | the average of a valid tally lies in [0, 3]; it is at least 2 (or 1) iff the total is at least twice (or once) the answered count |
| Scoring.DimensionScore | src/utils/scoring.ts:25-49 | a dimension's score lies in [0, 3], and is 0 when none of its questions is answered |
| Scoring.ScoreToPriority | src/utils/scoring.ts:56-60 | high iff score ≥ 2, medium iff 1 ≤ score < 2, flexible iff score < 1 |
| Scoring.ScoreToPriorityMonotone | src/utils/scoring.ts:56-60 | a higher score never gives a lower priority |
| Scoring.PriorityByIntegers | src/utils/scoring.ts:46-60 | the priority is decided by comparing the points total with 2× and 1× the answered count |
| Scoring.CalculatePriorityProfile | src/utils/scoring.ts:67-86 | the loop sets each of the five dimensions to the priority of its score |
| Scoring.DimensionScores | src/utils/scoring.ts:93-103 | the score map has exactly the five profiled dimensions, no intimacy, each with its dimension's score |
| Scoring.ProfileMatchesScores | src/utils/scoring.ts:67-103 | the profile entry of every dimension is the priority of that dimension's entry in the score map |
| Scoring.EmptyAnswers | src/utils/scoring.ts:33-46 | with no answers every score is 0 and the profile is all flexible |
| Scoring.AllAIsHighAllDIsFlexible | src/utils/scoring.test.ts:17-85 | answering every question A gives all high; answering every question D gives all flexible |
| Scoring.AnswerAllScore | src/utils/scoring.ts:35-48 | answering every question with one letter scores every dimension at that letter's points |
| Scoring.ScoreDependsOnOwnAnswers | src/utils/scoring.ts:29-44 | two answer maps that agree on a dimension's questions give it the same score |
| Scoring.UnknownIdsIgnored | src/utils/scoring.ts:38-43 | an answer under an id that is not a bank question changes no score |
| Scoring.OtherDimensionsIndependent | src/utils/scoring.ts:29-31 | changing the answer to a question of another dimension leaves a dimension's score unchanged |
| Scoring.PartialAnswersAverageOverAnswered | src/utils/scoring.test.ts:422-432 | answering A and B to two of family's three questions scores 2.5: unanswered questions are not in the denominator |
| QuestionSelector.SelectForDimension | src/utils/questionSelector.ts:23-47 | every selected entry has the requested dimension |
| QuestionSelector.SelectionInBank | src/utils/questionSelector.ts:27-29 | every selected entry is a bank entry |
| QuestionSelector.SelectionAtHigh | src/utils/questionSelector.ts:32-34 | `high` selects the whole section of the dimension, in bank order |
| QuestionSelector.SelectionBelowHigh | src/utils/questionSelector.ts:28-45 | any other level selects all essential entries first, followed only by high-tagged entries; at `medium` these are the first two high-tagged entries of the section, in bank order |
| QuestionSelector.MediumTakesFirstHigh | src/utils/questionSelector.ts:27-38 | at `medium` the selection is the essentials followed by the first min(2, #high) high-tagged entries of the dimension's section |
| QuestionSelector.SelectionIsEssentials | src/utils/questionSelector.ts:40-45 | `flexible` and every unrecognised level select exactly the essential entries |
| QuestionSelector.SelectionLength | src/utils/questionSelector.ts:31-46 | the size is all entries for high, essential + min(2, high-tagged) for medium, essential otherwise |
| QuestionSelector.SelectedCountBounds | src/utils/questionSelector.ts:31-46 | a dimension contributes between its essential count and its whole section |
| QuestionSelector.SelectionHasNoDuplicates | src/utils/questionSelector.ts:27-38 | one dimension's selection never repeats an id |
| QuestionSelector.SortedDimensionsIsStableSort | src/utils/questionSelector.ts:55-62 | the sorted order holds each of the five dimensions once, by rank high < medium < flexible, ties in list order |
| QuestionSelector.SortedDimensionsOrdered | src/utils/questionSelector.ts:59-62 | the three concatenated priority groups are strictly ordered by (rank, list position) |
| QuestionSelector.SortedDimensionsComplete | src/utils/questionSelector.ts:55-62 | the sorted order is a rearrangement of the five dimensions |
| QuestionSelector.UniformSortsInListOrder | src/utils/questionSelector.ts:55-62 | when all dimensions share a priority the sort keeps the list order |
| QuestionSelector.FindIndex | src/utils/questionSelector.ts:72 | `findIndex` gives the first index with the id, or -1 when there is none |
| QuestionSelector.DedupKeepsFirstOccurrences | src/utils/questionSelector.ts:70-73 | the filtered list has no duplicate ids, keeps only input entries, and keeps the first occurrence of every id |
| QuestionSelector.DedupOfUnique | src/utils/questionSelector.ts:70-75 | a list whose ids are already distinct is returned unchanged |
| QuestionSelector.GatherFacts | src/utils/questionSelector.ts:64-68 | the concatenated blocks hold bank entries of the visited dimensions, with distinct ids, in dimension order |
| QuestionSelector.GatherFilter | src/utils/questionSelector.ts:64-68 | the entries of one visited dimension in the concatenation are exactly its own selection |
| QuestionSelector.SelectionIsGathered | src/utils/questionSelector.ts:54-76 | the de-duplication removes nothing: the result is the concatenation, which has distinct ids |
| QuestionSelector.SelectionPerDimension | src/utils/questionSelector.ts:64-68 | the entries of each dimension in the result are exactly its per-priority selection; none is intimacy |
| QuestionSelector.SelectionOrdered | src/utils/questionSelector.ts:58-68 | an entry of a higher-priority dimension, or of an equal-priority dimension earlier in the list, comes first |
| QuestionSelector.SelectionDimensionLength | src/utils/questionSelector.ts:64-75 | each dimension contributes exactly its per-priority count |
| QuestionSelector.SelectionLengthIsProfileCount | src/utils/questionSelector.ts:54-76 | the result's length is the sum of the five per-priority counts |
| QuestionSelector.SelectionLengthBounds | src/utils/questionSelector.ts:54-76 | every profile selects between 11 and 28 questions |
| QuestionSelector.UniformSelection | src/utils/questionSelector.ts:54-76 | a uniform profile selects the five dimension blocks in list order |
| QuestionSelector.AllHighSelectsWholeBank | src/utils/questionSelector.ts:54-76 | an all-high profile selects the whole bank, 28 questions, in bank order |
| QuestionSelector.AllFlexibleSelectsEssentials | src/utils/questionSelector.ts:54-76 | an all-flexible profile selects the 11 essential entries, dimension by dimension |
| QuestionSelector.FreeAndLockedPartition | src/utils/questionSelector.ts:83-103 | free ++ locked is the list; at most 7 are free; position i is free iff it is not locked iff i < 7 |
| QuestionSelector.SelectionAlwaysHasLockedQuestions | src/utils/questionSelector.ts:83-94 | for every profile exactly 7 questions are free and at least 4 are locked |
| I18n.Split | src/utils/i18n.ts:12 | `split('.')` gives at least one piece, and no piece contains a dot |
| I18n.JoinSplit | src/utils/i18n.ts:12 | joining the pieces of a split with dots gives the path back |
| I18n.SplitJoin | src/utils/i18n.ts:12 | splitting dot-joined dot-free segments gives the segments back |
| I18n.ResolveAppend | src/utils/i18n.ts:15-21 | walking a path in two parts is walking the first part, then the second from where it ended |
| I18n.LookupFindsLeaf | src/utils/i18n.ts:15-23 | a path that reaches a string gives that string |
| I18n.LookupMissingSegment | src/utils/i18n.ts:15-20 | when any segment is missing, or the walk meets a string before the end, the path itself is returned |
| I18n.LookupSubtree | src/utils/i18n.ts:23 | a path that ends at a subtree returns the path itself |
| I18n.ResolveInsert | src/utils/i18n.ts:15-21 | after a string is placed at a key path, walking that path reaches it |
| I18n.LookupAfterInsert | src/utils/i18n.ts:11-24 | looking up the dotted key of a string placed in the tree gives that string |
| I18n.NatToStringValue | src/utils/i18n.ts:31 | the decimal text of a number reads back as that number |
| I18n.WordPrefixOfWord | src/utils/i18n.ts:30 | the `\w+` match at a word followed by a non-word character is exactly that word |
| I18n.PlaceholderAtMarker | src/utils/i18n.ts:30 | a text starting with `{{w}}` for a word w starts with a placeholder whose key is w |
| I18n.NoPlaceholderUnchanged | src/utils/i18n.ts:30-32 | text with no placeholder is unchanged by any parameters |
| I18n.SubstituteText | src/utils/i18n.ts:30 | brace-free text passes through the replacement pass unchanged |
| I18n.SubstituteHole | src/utils/i18n.ts:30-32 | a leading placeholder becomes its parameter's text, or stays verbatim when the key is absent, and the rest is processed after it |
| I18n.FillTemplate | src/utils/i18n.ts:27-33 | interpolating a template of text pieces and placeholders gives each piece's text and each placeholder's replacement, in order |
| I18n.ZeroIsSubstituted | src/utils/i18n.ts:31 | a parameter equal to 0 is substituted as "0", not treated as missing |
| I18n.SinglePass | src/utils/i18n.ts:30 | a replacement value that itself looks like a placeholder is not scanned again |
| I18n.TranslateFallback | src/utils/i18n.ts:40-53 | a key that does not resolve to a string in the namespace translates as the interpolated key itself |
| Sanitize.TrimStart | src/utils/api/sanitize.ts:50 | a suffix of the text whose dropped prefix is all whitespace and which does not start with whitespace |
| Sanitize.TrimEnd | src/utils/api/sanitize.ts:50 | a prefix of the text whose dropped suffix is all whitespace and which does not end with whitespace |
| Sanitize.TrimIsMiddle | src/utils/api/sanitize.ts:50 | trimming keeps a contiguous middle, drops only whitespace around it, and leaves no whitespace at either end |
| Sanitize.TrimIdempotent | src/utils/api/sanitize.ts:50 | trimming twice is trimming once |
| Sanitize.AnyPatternFrom | src/utils/api/sanitize.ts:60-64 | the early-return loop reports a match iff some remaining pattern matches |
| Sanitize.SanitizeUserMessage | src/utils/api/sanitize.ts:49-67 | the text is the trim; safe iff non-empty, at most 700 long and matching no pattern; a reason iff not safe; empty, too long and injection exactly in their cases |
| Sanitize.SanitizeIdempotent | src/utils/api/sanitize.ts:49-67 | sanitising the sanitised text gives the same result |
| Sanitize.LengthLimitIsInclusive | src/utils/api/sanitize.ts:56-58 | a trimmed message of exactly 700 characters is neither empty nor too long |
| Sanitize.LengthCheckedBeforePatterns | src/utils/api/sanitize.ts:56-64 | a too-long message gets the same verdict whatever the patterns are |
| Json.Field | src/utils/firestore.ts:80-82 | property access gives a value iff the value is an object with that field |
| Json.DecodeEncode | src/utils/storage.ts:106-113 | a stored `{date, count}` counter reads back as itself |
| Json.CountForDay | src/utils/storage.ts:83-94 | a non-zero count is read only from a well-formed counter dated today, and is its count |
| Json.CountForDayOfEncoded | src/utils/storage.ts:83-94 | a counter reads as its count on its own day and as 0 on any other day |
| Storage.KeyNamesDistinct | src/utils/storage.ts:14-26 | every key is `@samvaad_` plus the setting's name, and different settings have different keys |
| Storage.GetAfterSet | src/utils/storage.ts:45-71 | a setting reads back as the value last stored, and storing one setting changes no other |
| Storage.MissingReadsDefault | src/utils/storage.ts:45-55 | an absent or unreadable setting reads as its default |
| Storage.ClearAllResets | src/utils/storage.ts:148-155 | after `clearAll` every setting reads as its default, and keys that are not settings are kept |
| Storage.ClearAssessmentResets | src/utils/storage.ts:160-171 | `clearAssessment` resets exactly answers, profile, completion flag and saved guide, and leaves every other key unchanged |
| Storage.DailyCountKeyIsNoSetting | src/utils/storage.ts:74 | the counter key is not a setting's key |
| Storage.ClearAllKeepsDailyCount | src/utils/storage.ts:148-155 | `clearAll` leaves the daily counter as it was |
| Storage.GetDailyCount | src/utils/storage.ts:83-94 | the counter read is dated today; a readable stored counter dated today is returned as stored, and a non-zero count can only come from such a counter |
| Storage.NewDayResets | src/utils/storage.ts:83-94 | a counter stored on another day reads as `{today, 0}`, so sending is allowed and 7 remain |
| Storage.GetRemainingMessages | src/utils/storage.ts:101-104 | the remaining count is 7 minus today's count below the limit and 0 from the limit on, so never negative and, for a non-negative count, at most 7 |
| Storage.CanSendIffRemaining | src/utils/storage.ts:96-104 | sending is allowed iff messages remain; below the limit, remaining + count = 7 |
| Storage.IncrementCounts | src/utils/storage.ts:106-113 | incrementing adds one to today's count and changes no setting |
| Storage.AllowedIncrementStaysWithinLimit | src/utils/storage.ts:96-113 | counting a message that was allowed keeps a non-negative count at most 7 |
| Firestore.NamesDistinct | src/utils/firestore.ts:21-32 | the ten field names are distinct and differ from the counter and tier fields |
| Firestore.DefaultFieldsAreDefaults | src/utils/firestore.ts:21-32 | the default document holds exactly the ten fields, each with its default |
| Firestore.GetFieldDefaults | src/utils/firestore.ts:40-55 | a missing document, a missing field or a failed read gives the default; a stored null is returned as null |
| Firestore.MergeValue | src/utils/firestore.ts:64 | a leaf replaces the stored value; a non-empty object yields an object holding its leaf entries as written, every stored entry it does not mention, and no other key |
| Firestore.SetFieldMerges | src/utils/firestore.ts:58-68 | a leaf reads back as written; an object reads back holding its leaf entries and every stored entry it does not mention; no other key changes or appears, and a failed write changes nothing |
| Firestore.AnswersMergeIntoStored | src/utils/firestore.ts:146-147 | writing `{family_01: C}` over `{family_01: A, family_02: B}` keeps `family_02`; writing `{}` clears the answers |
| Firestore.MergedCounterDecodes | src/utils/firestore.ts:188 | a counter merged over any stored value decodes as the counter written |
| Firestore.MergeCounterFacts | src/utils/firestore.ts:188 | merging a counter stores it readably and keeps every other key of the document |
| Firestore.SetFieldLeavesOthers | src/utils/firestore.ts:58-68 | merging one field leaves every other field's read unchanged |
| Firestore.Coalesce | src/utils/firestore.ts:88-97 | `??` gives a present non-null value, and the default exactly when the value is absent or null |
| Firestore.LoadMissingGivesDefaults | src/utils/firestore.ts:71-102 | a missing or unreadable document loads as all defaults and leaves the cache alone |
| Firestore.LoadFieldValues | src/utils/firestore.ts:87-98 | each field loads as its stored value when present and non-null (agreeing with `getField`), and as its default otherwise |
| Firestore.LoadCachesTodaysCount | src/utils/firestore.ts:79-85 | a counter dated today is copied to the cache, so the quota check sees its count; another day's counter leaves the cache alone |
| Firestore.IncrementSyncsCacheAndDocument | src/utils/firestore.ts:180-192 | the cached count grows by one; when the write succeeds the document holds the same counter; no field changes |
| Firestore.ClearAllKeepsRetakeAndPremium | src/utils/firestore.ts:194-207 | the document becomes the defaults except that `retakeCount` and `isPremium` keep their values as each one's own read gives them (null or a failed read becoming 0 and false); nothing else stays; a failed write changes nothing |
| Firestore.ClearAllMixedReadsLosePremium | src/utils/firestore.ts:196-203 | with `{retakeCount: 2, isPremium: true}` stored, a successful first read and a failed second read write `retakeCount: 2` and `isPremium: false` |
| Firestore.ClearAllDropsCounterAndTier | src/utils/firestore.ts:200-203 | a successful `clearAll` removes the daily counter and the subscription tier from the document |
| Firestore.ClearAssessmentResetsExactly | src/utils/firestore.ts:209-224 | exactly the five assessment fields read as defaults; every other key, the counter included, is unchanged |
| GeminiProxy.FirstItem | functions/src/index.ts:103 | `?.[0]` gives something iff its operand is a non-empty array, and then its first item |
| GeminiProxy.ReplyText | functions/src/index.ts:103 | the reply text is never null (`?? ""`) |
| GeminiProxy.ReplyTextOfFirstPart | functions/src/index.ts:103 | a body whose `candidates[0].content.parts[0].text` is a non-null value replies with that value |
| GeminiProxy.ReplyTextWithoutCandidates | functions/src/index.ts:103 | a body without a `candidates` array, or with an empty one, replies with `""` |
| GeminiProxy.UnauthenticatedHasNoEffect | functions/src/index.ts:39-41 | an unauthenticated call is refused without calling upstream or writing |
| GeminiProxy.MissingContentsRejected | functions/src/index.ts:43-48 | a signed-in call without an argument fails as internal (the destructuring throws); otherwise it is an invalid argument iff `contents` is not an array; neither has an effect |
| GeminiProxy.PremiumIsNeverLimited | functions/src/index.ts:55-60 | a premium user is never refused for quota, always reaches upstream, and is never counted |
| GeminiProxy.LimitCheckedBeforeUpstream | functions/src/index.ts:58-74 | a free user is refused for quota iff today's count is at least 5, before any upstream call and without writing |
| GeminiProxy.CountingKeepsPremium | functions/src/index.ts:105-116 | writing the counter does not change whether the user is premium |
| GeminiProxy.CountedOnlyAfterSuccess | functions/src/index.ts:95-116 | an upstream failure or a null 2xx body is an internal error with no write; any other body replies and stores today's count + 1 ≤ 5, changing no other key |
| GeminiProxy.CountedFacts | functions/src/index.ts:105-116 | the merged counter reads as today's count + 1 and every other key of the document is kept |
| GeminiProxy.RunRespectsDailyLimit | functions/src/index.ts:58-116 | over any series of calls on one day a free user gets at most the rest of the allowance in replies, and the stored count grows by exactly the replies |
| GeminiProxy.ClientIncrementIsServerCount | functions/src/index.ts:61-67 | after the client's increment, the server counts the client's cached count + 1 for today |
| GeminiProxy.ClearAllResetsServerQuota | functions/src/index.ts:55-67 | after the client's `clearAll` the server counts 0 messages today, and the user is premium iff the kept `isPremium` is true |

## Left out

- Dates: `getTodayIST` needs the wall clock and a fractional time-zone offset, so the day is a parameter.
- I/O: device-storage write failures (`setStorageItem`, `multiRemove`) are only logged, and the model assumes writes succeed.
- I/O: a failed write of the device cache in the cloud store is ignored by the code, and the model assumes the cache write succeeds.
- I/O: Firestore read failures inside `callGemini`, and failures of its final write, are not modelled. They surface as a generic function error.
- Messages: error messages and console logging are not modelled.
- The network: the Gemini request body (`systemInstruction`, `safetySettings`), the API key and the region are not modelled.
- Concurrency: two calls of `callGemini` interleaving between their read and their write is not modelled.
- Data: the bilingual texts of both banks, the dimension names and icons, and the locale files are data, not behaviour.
- The injection regular expressions are arbitrary predicates on the trimmed text. None uses the `g` flag, so each test is a pure function.
- Sanitize.SanitizeUserMessage: the length is counted in characters, while JavaScript counts UTF-16 code units. Text outside the Basic Multilingual Plane is counted differently.
- Scoring.DimensionScore: answers are one of the letters A to D. A stored value outside that set (which the code would add as `NaN`) and an empty-string answer (which the code skips) are not represented.
- QuestionSelector.SortedDimensions: profile values are the three priorities. The comparator's `NaN` behaviour for an unknown level in a profile is not modelled. Unknown levels are modelled for the per-dimension selection through `SelectForDimension`'s string argument.
- Json.CountForDay: a counter dated today whose `count` is not a number reads as 0. The code would return that value as it is.
- Storage.GetDailyCount: inherits the same gap for non-numeric counts.
- GeminiProxy.TodayCount: inherits the same gap for non-numeric counts.
- I18n.GetNestedValue: `key in obj` also sees inherited object properties such as `toString`. The model looks up only the tree's own keys.
- I18n.Interpolate: parameter lookup also sees inherited properties, which the model omits.
- I18n.ValueText: numbers are integers. Fractional numbers and their `toString` are not modelled, and integers of 10^21 and above are written in plain digits where JavaScript writes exponent form such as `1e+21`.
- Scoring.Mean: the average is an exact rational, while the code divides in double precision. Averages in thirds (such as 8/3) differ in the last bit. The 1.0 and 2.0 thresholds are unaffected, because a total of at most 12 over at most 4 answers never rounds across them.
- I/O: a response body that is not JSON makes `response.json()` throw; the model's bodies are always JSON values.
- GeminiProxy.ReplyText: `?.[0]` applied to a string or an object, which JavaScript indexes, gives nothing in the model.
- Scoring: the tests' expectation of an `intimacy` entry in the profile is not modelled, because the code produces five entries.
- QuestionSelector: the tests' free count of 10 is not modelled, because the code uses 7.
