# Palabra del día — word rotation core in Dafny

Palabra del día is a vocabulary app with a home-screen widget. It shows one
foreign word at a time and rotates through a bundled word list. This project
models, and proves properties of, the parts of the app that decide which word
is shown:

- **Scheduler** (`WordScheduler`) builds a daily schedule of word slots, spread
  evenly over a user-chosen time window. The window may cross midnight. The
  scheduler also picks the word of the latest slot that has already started.
- **WordStore** (`SharedWordStore`) is the key-value store that the app and the
  widget share. It holds the seen words, the current word, a bounded
  most-recent-last history, today's schedule and the schedule settings.
- **WordSource** (`BundledWordSource`) picks random words without repeating
  any word before every word has been shown once.
- **LanguageCatalog** is the fixed table of language pairs, with its
  fallback lookup.
- **ScheduleSettings** and **FilterSettings** are the settings values and their
  derived flags.
- **ConvertWords** is the offline CSV-to-JSON converter that produces the word
  list. It covers field stripping with defaults, category splitting on `|`,
  at most two examples per word, and row validation that stops at the first
  bad row.

Modelling conventions:

- A `Date` is a whole number of seconds. `Calendar` is a fixed time zone whose
  days are all 86400 seconds long.
- Randomness (`shuffled()`, `randomElement()`) is a nondeterministic choice
  (`:|`). Contracts hold for every choice.
- `UserDefaults` is a `map<string, StoredValue>` field of the store class.
  `StoredValue` holds typed values in place of their JSON encoding.
- A CSV row is a `map<string, string>`. A column the row lacks reads as `""`,
  as in `row.get(key, '')`.
- Python's `str.strip()` removes exactly the characters for which
  `str.isspace()` holds. `IsWhitespace` lists them.
- Swift's `label` field is called `labelText`, because `label` is a Dafny
  keyword.

## Model

| member | source | states |
|---|---|---|
| Calendar.StartOfDay | Shared/Logic/WordScheduler.swift:90 | the result is a midnight at or before `t`, less than one day before it |
| Calendar.IsSameDay | Shared/Logic/WordScheduler.swift:22 | two instants are on the same day exactly when they have the same start of day; `StartOfDayUnique` characterises that midnight |
| Calendar.StartOfDayUnique | Shared/Logic/WordScheduler.swift:26 | any midnight within a day before `t` is `t`'s start of day |
| Calendar.StartOfDayIdempotent | Shared/Logic/WordScheduler.swift:26 | the start of a start of day is itself |
| Calendar.MinutesSinceStartOfDay | Shared/Logic/WordScheduler.swift:103-106 | the minute of the day is in `0 ..< 1440`, and `t` lies within that minute |
| Calendar.PreviousDay | Shared/Logic/WordScheduler.swift:97 | going back one day from a midnight gives the previous midnight, the start of the day of `d - 1` |
| ScheduleSettings.CrossesMidnight | Shared/Models/WordScheduleSettings.swift:17-19 | the window crosses midnight when it ends at or before its start; its consequences are in `EqualBoundsCrossMidnight` and `ScheduleAnchorDate` |
| ScheduleSettings.DefaultSettingsValues | Shared/Models/WordScheduleSettings.swift:15-19 | the defaults are 5 words from 07:00 (420) to 21:00 (1260), and they do not cross midnight |
| ScheduleSettings.EqualBoundsCrossMidnight | Shared/Models/WordScheduleSettings.swift:17-19 | equal start and end minutes count as crossing midnight |
| FilterSettings.SelectsAllLevels | Shared/Models/WordFilterSettings.swift:16-18 | no level restriction when the level list is empty; `NonEmptyRestricts` states both directions |
| FilterSettings.SelectsAllCategories | Shared/Models/WordFilterSettings.swift:20-22 | no category restriction when the category list is empty; `NonEmptyRestricts` states both directions |
| FilterSettings.AllSelectsEverything | Shared/Models/WordFilterSettings.swift:14-22 | `all` has empty lists and selects every level and every category |
| FilterSettings.NonEmptyRestricts | Shared/Models/WordFilterSettings.swift:16-22 | each "selects all" flag holds exactly when its list is empty |
| LanguageCatalog.FirstWithId | Shared/Models/LanguageCatalog.swift:29 | none exactly when no option has the id; otherwise the index of the first option with that id |
| LanguageCatalog.OptionFor | Shared/Models/LanguageCatalog.swift:28-33 | the result is always a table entry: the matching one for a known id, the first for `nil` or an unknown id |
| LanguageCatalog.DefaultIsFirst | Shared/Models/LanguageCatalog.swift:19-30 | the fallback `options[0]` is the `defaultID` entry, for `nil` and for `"es-en"` |
| LanguageCatalog.OptionIdsDistinct | Shared/Models/LanguageCatalog.swift:19-24 | the four ids in the table are pairwise different |
| LanguageCatalog.OptionForOwnId | Shared/Models/LanguageCatalog.swift:28-33 | looking up an entry's own id returns that entry |
| Words.Ids | Shared/Logic/WordScheduler.swift:65 | the ids of a word list, one per word, in order |
| WordStore.KeysDistinct | Shared/Storage/SharedWordStore.swift:116-122 | the five store keys are pairwise different |
| WordStore.StringsAt | Shared/Storage/SharedWordStore.swift:42 | a missing key reads as the empty list; a stored list reads as itself |
| WordStore.TextAt | Shared/Storage/SharedWordStore.swift:56 | some text exactly when text is stored under the key, and then that text |
| WordStore.ScheduleAt | Shared/Storage/SharedWordStore.swift:96-103 | a schedule exactly when one is stored under the key, and then that schedule |
| WordStore.SettingsAt | Shared/Storage/SharedWordStore.swift:96-103 | settings exactly when settings are stored under the key, and then those settings |
| WordStore.Without | Shared/Storage/SharedWordStore.swift:72 | the filtered history no longer contains `id`, and is shorter by exactly the number of copies of `id` |
| WordStore.WithoutCount | Shared/Storage/SharedWordStore.swift:72 | every entry other than `id` survives as many times as it occurred |
| WordStore.WithoutMembers | Shared/Storage/SharedWordStore.swift:72 | the filter keeps exactly the entries different from `id` |
| WordStore.WithoutIsSubsequence | Shared/Storage/SharedWordStore.swift:72 | the filter keeps the order of the entries it keeps |
| WordStore.AppendedHistory | Shared/Storage/SharedWordStore.swift:72-77 | the new history has at most `limit` entries, and with `limit >= 1` it ends with `id` |
| WordStore.AppendedHistoryShape | Shared/Storage/SharedWordStore.swift:71-78 | with `limit >= 1`, the new history is the newest `min(limit - 1, n)` other entries followed by `id` |
| WordStore.AppendedHistoryProperties | Shared/Storage/SharedWordStore.swift:71-78 | with `limit >= 1`, the new history has `min(limit - 1, n) + 1 <= limit` entries, ends with `id` and holds `id` exactly once |
| WordStore.AppendedHistoryKeepsOrder | Shared/Storage/SharedWordStore.swift:71-78 | the entries before `id` are a subsequence of the old history |
| WordStore.AppendedHistoryZeroLimit | Shared/Storage/SharedWordStore.swift:74-76 | a zero limit empties the history |
| WordStore.ArrayOfSet | Shared/Storage/SharedWordStore.swift:50-52 | `Array(Set)` lists every member exactly once and nothing else |
| WordStore.SharedWordStore.constructor | Shared/Storage/SharedWordStore.swift:30-39 | the store starts from whatever the shared defaults hold |
| WordStore.SharedWordStore.LoadSeenWordIDs | Shared/Storage/SharedWordStore.swift:41-43 | a missing key reads as no seen words |
| WordStore.SharedWordStore.SaveSeenWordIDs | Shared/Storage/SharedWordStore.swift:45-47 | only the seen key changes; loading returns the saved list |
| WordStore.SharedWordStore.MarkSeen | Shared/Storage/SharedWordStore.swift:49-53 | the seen list becomes the old members plus `id`, with no duplicates; other keys are unchanged |
| WordStore.SharedWordStore.LoadCurrentWordID | Shared/Storage/SharedWordStore.swift:55-57 | a missing key reads as no current word |
| WordStore.SharedWordStore.SaveCurrentWordID | Shared/Storage/SharedWordStore.swift:59-61 | an id is stored and loaded back; `nil` removes the key; other keys are unchanged |
| WordStore.SharedWordStore.LoadHistoryIDs | Shared/Storage/SharedWordStore.swift:63-65 | a missing key reads as an empty history |
| WordStore.SharedWordStore.SaveHistoryIDs | Shared/Storage/SharedWordStore.swift:67-69 | only the history key changes; loading returns the saved list |
| WordStore.SharedWordStore.AppendHistory | Shared/Storage/SharedWordStore.swift:71-78 | the stored history becomes `AppendedHistory` of the old one, and only that key changes |
| WordStore.SharedWordStore.LoadSchedule | Shared/Storage/SharedWordStore.swift:80-82 | a missing key reads as no schedule |
| WordStore.SharedWordStore.SaveSchedule | Shared/Storage/SharedWordStore.swift:84-86 | a schedule is stored and loaded back; `nil` removes the key; other keys are unchanged |
| WordStore.SharedWordStore.LoadScheduleSettings | Shared/Storage/SharedWordStore.swift:88-90 | a missing key reads as no settings |
| WordStore.SharedWordStore.SaveScheduleSettings | Shared/Storage/SharedWordStore.swift:92-94 | the settings are stored and loaded back; other keys are unchanged |
| WordStore.SavesAreIndependent | Shared/Storage/SharedWordStore.swift:105-114 | writing or removing one key changes nothing read from any other key |
| Scheduler.ClampMinutes | Shared/Logic/WordScheduler.swift:73-74 | the minute is clamped into `0 ... 1440`, and in-range minutes are kept |
| Scheduler.WindowMinutes | Shared/Logic/WordScheduler.swift:75 | the window length is in `0 ... 1440` and leads from start to end modulo a day; equal bounds give a whole day |
| Scheduler.WindowSeconds | Shared/Logic/WordScheduler.swift:76 | the window is never shorter than one minute |
| Scheduler.WindowOpens | Shared/Logic/WordScheduler.swift:73-81 | the window opens on the given day, within one day of its midnight, at `startMinutes` minutes past midnight when that minute is in range (otherwise the clamped minute) |
| Scheduler.SlotStart | Shared/Logic/WordScheduler.swift:76-82 | slot `index` starts at the window opening plus `index` times the window length divided by the slot count, rounded down; `SlotStartsInWindow` proves where it lies |
| Scheduler.SlotOffsets | Shared/Logic/WordScheduler.swift:76-82 | slot offsets start at 0, never decrease, and stay below the window length |
| Scheduler.SlotStartsInWindow | Shared/Logic/WordScheduler.swift:79-83 | the first slot opens with the window, starts are monotone, and every start lies inside the window |
| Scheduler.InsertByStart | Shared/Logic/WordScheduler.swift:45 | insertion adds exactly one slot to the multiset |
| Scheduler.InsertByStartSorted | Shared/Logic/WordScheduler.swift:45 | inserting into a sorted list keeps it sorted |
| Scheduler.SortByStart | Shared/Logic/WordScheduler.swift:45 | the result is sorted by start and is a permutation of the input |
| Scheduler.LatestOfSorted | Shared/Logic/WordScheduler.swift:45-56 | the last started slot of the sorted list is the latest started slot of the original list |
| Scheduler.ScheduleAnchorDate | Shared/Logic/WordScheduler.swift:89-101 | the anchor is a midnight, today or yesterday; yesterday exactly when the window crosses midnight and the end minute has not been reached |
| Scheduler.AnchorYesterdayMeansWindowStillOpen | Shared/Logic/WordScheduler.swift:95-97 | a yesterday anchor means `now` is still before the end of yesterday's window |
| Scheduler.IsShuffleOrder | Shared/Logic/WordScheduler.swift:65 | the arrangement `shuffled()` may return: `n` pairwise different positions, each in `0 ..< n` |
| Scheduler.WordScheduler.constructor | Shared/Logic/WordScheduler.swift:14-17 | the scheduler keeps the given words |
| Scheduler.WordScheduler.UniqueWordIDs | Shared/Logic/WordScheduler.swift:59-66 | no ids for no words; else `min(limit, count)` ids from a permutation of the words, pairwise distinct when word ids are unique |
| Scheduler.WordScheduler.BuildSlots | Shared/Logic/WordScheduler.swift:68-87 | none when `slotsPerDay <= 0`; else `min(slotsPerDay, ids)` slots, slot `i` with id `i` at `SlotStart(i)`, monotone, inside the window |
| Scheduler.WordScheduler.CurrentWordID | Shared/Logic/WordScheduler.swift:40-57 | none exactly when no slot has started; otherwise the word of a latest started slot |
| Scheduler.WordScheduler.LoadOrCreateSchedule | Shared/Logic/WordScheduler.swift:19-38 | a stored schedule for the anchor day is returned untouched; else a saved new schedule at the anchor midnight, `max(0, min(wordsPerDay, words))` slots, known ids, distinct when word ids are |
| WordSource.FilterUnseen | Shared/Data/BundledWordSource.swift:28 | the candidates are exactly the words whose id has not been seen |
| WordSource.BundledWordSource.constructor | Shared/Data/BundledWordSource.swift:14-17 | the source keeps the loaded words and the given seen set |
| WordSource.BundledWordSource.NextWord | Shared/Data/BundledWordSource.swift:19-36 | none exactly when there are no words; otherwise a word unseen since the last reset, which is then recorded; the seen set resets when full or when no candidate is left; validity is kept |
| WordSource.FirstRound | Shared/Data/BundledWordSource.swift:19-36 | from an empty seen set, one call per word returns every word exactly once |
| ConvertWords.IsWhitespace | scripts/convert_words.py:28-29 | the characters for which `str.isspace()` holds, which `strip()` removes |
| ConvertWords.Strip | scripts/convert_words.py:28-29 | `strip()` is never longer than its input and neither starts nor ends with whitespace |
| ConvertWords.StripAllBlank | scripts/convert_words.py:25-48 | a string made only of whitespace strips to `""` |
| ConvertWords.StripDropsOnlyBlanks | scripts/convert_words.py:28-29 | `strip()` keeps one contiguous infix that neither starts nor ends with whitespace and drops only whitespace around it |
| ConvertWords.StripKeepsCharacters | scripts/convert_words.py:28-29 | `strip()` adds no character |
| ConvertWords.StripIdempotent | scripts/convert_words.py:28-29 | stripping twice is the same as stripping once |
| ConvertWords.Split | scripts/convert_words.py:10 | one more piece than separators, and no piece contains the separator |
| ConvertWords.JoinSplit | scripts/convert_words.py:10 | joining the pieces with the separator gives back the string |
| ConvertWords.StripEach | scripts/convert_words.py:10 | element `k` is the stripped piece `k` |
| ConvertWords.KeepNonEmpty | scripts/convert_words.py:11 | exactly the non-empty pieces are kept, and the result is shorter by exactly the number of empty pieces |
| ConvertWords.KeepNonEmptyCount | scripts/convert_words.py:11 | every non-empty piece is kept as many times as it occurs |
| ConvertWords.KeepNonEmptyIsSubsequence | scripts/convert_words.py:11 | the kept pieces stay in order |
| ConvertWords.ParseCategories | scripts/convert_words.py:7-11 | an empty value gives `[]`; at most one category per piece; each category is non-empty, has no `|`, and has no whitespace at either end; `ParseCategoriesKeepsOrder` states which categories they are |
| ConvertWords.ParseCategoriesKeepsOrder | scripts/convert_words.py:7-11 | the categories are a subsequence of the stripped pieces, and every non-empty stripped piece occurs among them exactly as often as among the pieces; together these say the categories are exactly the non-empty stripped pieces, in order |
| ConvertWords.Field | scripts/convert_words.py:28 | a present column reads as its cell, a missing column as `""` |
| ConvertWords.StrippedOr | scripts/convert_words.py:34-35 | the stripped value when it is non-empty, otherwise the fallback |
| ConvertWords.ExampleFrom | scripts/convert_words.py:37-45 | one example exactly when both stripped texts are non-blank, holding those texts; otherwise none |
| ConvertWords.ConvertRow | scripts/convert_words.py:25-57 | a row is accepted exactly when its id is non-empty and its stripped source and target are non-blank; a missing or empty id means a missing-id error; a blank source or target means a missing-source/target error; an accepted row has the stripped id, source and target |
| ConvertWords.NormalizeRow | scripts/convert_words.py:47-56 | the entry carries the stripped id and the given source and target |
| ConvertWords.ConvertRowDefaults | scripts/convert_words.py:34-53 | blank languages and level become `es-ES`, `en-US` and `beginner` |
| ConvertWords.ConvertRowExamples | scripts/convert_words.py:37-45 | at most two examples, the first pair before the second, each with non-blank texts |
| ConvertWords.ConvertRowCategories | scripts/convert_words.py:54 | categories are parsed from the stripped cell; none is blank or holds `|` |
| ConvertWords.BlankIdAccepted | scripts/convert_words.py:25-48 | the id is checked before stripping, so every row whose id is non-empty but all whitespace, with non-blank source and target, is accepted and stored with id `""` |
| ConvertWords.ExitCode | scripts/convert_words.py:24-60 | exit status 0 exactly when the file is written, 1 otherwise |
| ConvertWords.ConvertRows | scripts/convert_words.py:21-57 | written exactly when every row converts, with one entry per row in order; otherwise the first refused row, its error and number, with all earlier rows accepted |

## Left out

- JSON encoding and decoding with ISO-8601 dates (`loadCodable`, `saveCodable`) are not modelled. Values are stored as typed values, so the model does not capture a decode failure becoming `nil` or dates being truncated to whole seconds.
- The App Group probe in the store's `init` depends on the platform. The constructor takes the initial contents instead.
- Time zones and daylight saving are not modelled: every day has 86400 seconds. Adding minutes, seconds or days to a date is plain addition, and the `?? date` fallbacks never apply.
- Scheduler.WordScheduler.BuildSlots: computes the slot offset as the integer `(index * windowSeconds) / slotsPerDay`. The source uses `Double` and truncates with `Int(...)`, so for large counts a rounding difference of one second is not modelled.
- Which permutation `shuffled()` returns and which element `randomElement()` returns are not modelled. Their distributions are left out; contracts hold for every choice.
- Swift's `sorted` may order slots with equal starts either way. The model's insertion sort is stable, and no contract depends on how ties are ordered.
- 64-bit `Int` overflow is not modelled; integers are unbounded.
- Word ids are compared as sequences of code points. Swift compares `String` values by Unicode canonical equivalence in `filter { $0 != id }`, `Set`, `contains` and `first(where:)`, so it treats `"é"` (U+00E9) and `"e"` followed by U+0301 as the same id. The model treats them as different ids: with history `["é"]`, appending `"e\u{301}"` keeps both entries in the model but only the new one in Swift. The converter does not normalise ids either.
- WordStore.SharedWordStore.AppendHistory: takes `limit: nat`, so the negative limits on which `suffix` traps in Swift are excluded rather than modelled as a trap.
- Scheduler.WordScheduler.UniqueWordIDs: requires `limit >= 0` when there are words, because `prefix` with a negative count traps in Swift. `LoadOrCreateSchedule` requires the same `wordsPerDay >= 0` only on the path that builds a new schedule. It makes no such demand when the stored schedule belongs to the anchor day, because the source returns before calling `uniqueWordIDs` there.
- WordStore.SharedWordStore.AppendHistory: its contract is the function `AppendedHistory`. The bounds, the single `id` and the order are proved about that function in the `AppendedHistory*` lemmas. A limit of 0 empties the history, as in the source.
- `loadLanguageSelectionID`, which the widget calls, is not defined in the store file and is not part of this model.
- Converter I/O is not modelled: command-line arguments, the usage message, opening and reading the CSV file, writing the JSON file, and the printed error messages. `ConvertRows` takes the parsed rows and returns what would be written or the row that stopped the run. `ExitCode` gives the resulting exit status.
- Python's `csv.DictReader` gives `None` for the missing cells of a short row, and `.strip()` on it would raise. This model reads every missing cell as `""`.
- A `WordEntry` is modelled by its `id` only. Its other fields are never read by the rotation logic.
- The UI, speech, widget timelines, bundle loading and its errors (the `loader` that may throw), and sharing between processes are not modelled.
