# Interview practice tracker: a verified model

This project models the core of a browser application for practising
coding-interview questions. The user groups question URLs into named
playlists. Each attempt at a question is timed in three phases:
thinking, coding and, optionally, reviewing the solution. The
dashboard reports progress per playlist and overall. The model covers
the following parts:

- **The attempt timer** (`Timer`). This is an idle → thinking → coding
  → finished state machine with a review phase entered through "see
  solution". Each phase has a 600-second countdown. The machine hands
  one `{timeThink, timeCode, sawSolution}` record to its parent when
  the attempt finishes. The transitions are pure step functions over a
  `TimerState` value. The component itself is the class
  `AttemptTimer`. Each of its methods is proved to perform exactly the
  corresponding step and to keep the invariant `Inv`.
- **The home page** (`Home`). This covers saving a playlist from
  imported records, which includes building default question entries
  and the fallback title derived from the URL. It also covers deleting
  a playlist, the completion check, and choosing between the speedrun
  page and the solve page. The page's state is the class `HomePage`,
  whose map fields the methods update.
- **The add-playlist dialog** (`AddPlaylistModal`). This covers the
  manual entry parser and its validation, and the guards around a CSV
  import.
- **The progress aggregates**:
  - the exact round-half-up percentage (`Percentage`);
  - the sidebar's per-playlist completion (`PlaylistSidebar`);
  - the overall statistics (`OverallStats`);
  - the details table (`PlaylistDetails`), with the difficulty colour,
    the `Xm Ys` duration text, the best speedrun, the average time per
    question and the skipping of missing questions.

`Text` models the JavaScript string operations these use. Each is
specified by its meaning rather than its code: `trim` over the
ECMAScript whitespace set, single-character `split` and `join`,
`indexOf`, ASCII case mapping, decimal rendering and `padStart`.
`Wrappers` holds `Option` and `Result`. `AppData` holds the stored
records.

Two behaviours of the code are worth noting:

- "See solution" is offered in every running phase, review included
  (`src/components/Timer.js:136`). Pressing it during review keeps
  both recorded times and restarts the review budget, so review is
  reachable from review as well as from thinking and coding.
- The fallback title is built from the text after the first
  `/problems/` of the URL, up to the next `/problems/`, with every
  slash removed. It is not built from the URL's last path segment
  (`src/pages/index.js:35`).

## Model

| member | source | states |
|---|---|---|
| Text.Trim | src/components/AddPlaylistModal.js:38 | `trim` returns the slice of the input that has only whitespace before and after it; the result is empty iff the input is all whitespace, and otherwise neither starts nor ends with whitespace, so exactly the leading and trailing ECMAScript whitespace is removed |
| Text.Split | src/components/AddPlaylistModal.js:42 | `split` on one character yields at least one piece, no piece holds the separator, and joining the pieces with it restores the input |
| Text.SplitJoin | src/pages/index.js:35 | splitting the join of separator-free pieces gives back exactly those pieces |
| Text.RemoveAll | src/pages/index.js:35 | `replace(/[/]/g, '')` leaves no slash and keeps every other character with its multiplicity |
| Text.Find | src/pages/index.js:35 | `indexOf` gives the first position where the pattern occurs, and nothing exactly when it never occurs |
| Text.ToLower | src/components/PlaylistDetails.js:5 | `toLowerCase` keeps the length and lower-cases each character in place |
| Text.PadStart2 | src/components/Timer.js:8-9 | `padStart(2, '0')` leaves a string of two or more characters alone and otherwise prefixes zeros up to length two, keeping the string as its suffix |
| Text.IntToString | src/components/PlaylistDetails.js:17 | an integer interpolated into a template is a minus sign exactly when negative, followed by the non-empty decimal digits of its magnitude |
| Text.NatToString | src/components/Timer.js:8-9 | `toString` of a non-negative integer is a non-empty digit string without a leading zero that denotes the number; one digit below 10, at most two below 100 |
| Timer.TwoDigitField | src/components/Timer.js:8-9 | a number below 100 padded with `padStart(2, '0')` is exactly two digits denoting it |
| Timer.FormatClock | src/components/Timer.js:7-11 | `formatTime` of any count ends in `:ss`, two digits denoting the seconds modulo 60, after at least two minute digits |
| Timer.FormatClockRoundTrip | src/components/Timer.js:7-11 | below 100 minutes `formatTime` gives `mm:ss` with mm the whole minutes and ss the remaining seconds below 60, and reading the display back yields the number of seconds formatted |
| Timer.FullBudgetDisplay | src/components/Timer.js:119-121 | `formatTime(600)` is `10:00`, the text the idle display shows |
| Timer.StartStep | src/components/Timer.js:22-26 | `handleStart` from idle keeps the invariant; it always opens thinking with a full running countdown and emits nothing |
| Timer.StartSignalStep | src/components/Timer.js:75-79 | the start-signal effect keeps the invariant |
| Timer.NextPhaseStep | src/components/Timer.js:30-55 | `handleNextPhase` keeps the invariant; thinking moves on to coding, and coding or review ends the attempt inactive in finished |
| Timer.SeeSolutionStep | src/components/Timer.js:57-71 | `handleSeeSolution` from a running phase keeps the invariant; it always opens review with a full running budget and the flag set |
| Timer.TickStep | src/components/Timer.js:82-93 | one run of the countdown effect keeps the invariant, and the countdown only goes down unless the phase changes |
| Timer.Apply | src/components/Timer.js:125-138 | every input the rendered controls and effects can deliver keeps the invariant |
| Timer.InitialInv | src/components/Timer.js:14-20 | the mounted state (idle, 600, inactive, zero times, no record) satisfies the invariant |
| Timer.StartSignalEntersThinking | src/components/Timer.js:74-79 | the start signal enters thinking with a full running countdown only when idle; otherwise nothing changes |
| Timer.ThinkingAdvance | src/components/Timer.js:33-37 | leaving thinking records timeThink = 600 − remaining (within 0..600) and opens coding with a fresh running budget, emitting nothing |
| Timer.CodingAdvance | src/components/Timer.js:38-46 | leaving coding emits {timeThink, 600 − remaining, false} and ends inactive in finished |
| Timer.ReviewAdvance | src/components/Timer.js:47-54 | leaving review emits the stored times with sawSolution = true and ends inactive in finished |
| Timer.SeeSolutionRecords | src/components/Timer.js:57-71 | see solution always enters review with 600 running and the flag set; from thinking it records the think time and zeroes the code time; from coding it records the code time; from review it keeps both |
| Timer.SeeSolutionAt540 | src/components/Timer.js:61-62 | seeing the solution with 540 s of coding left records timeCode = 60, and the eventual record carries sawSolution = true |
| Timer.TickBehaviour | src/components/Timer.js:82-93 | a tick takes exactly one second off an active countdown with time left, performs the phase advance at zero, and leaves an inactive timer unchanged |
| Timer.RunInv | src/components/Timer.js:3-5 | along any input sequence the invariant holds, the countdown stays within 0..600 and at most one record is emitted |
| Timer.FinishedIsFinal | src/components/Timer.js:30-55 | finished has no advance branch and no running countdown: no input changes a finished timer, so the record is emitted once |
| Timer.ThinkingTimesOut | src/components/Timer.js:84-91 | left alone, thinking with t seconds left reaches coding after t + 1 ticks, with timeThink = 600 and a fresh 600 budget |
| Timer.AttemptTimer.constructor | src/components/Timer.js:14-20 | the component starts idle with 600 seconds, inactive, zero times and no record, satisfying the invariant |
| Timer.AttemptTimer.Display | src/components/Timer.js:119-121 | the clock shows `mm:ss` with the remaining whole minutes and the remaining seconds below 60, `10:00` while idle, and always reads back as the remaining time |
| Timer.AttemptTimer.Start | src/components/Timer.js:22-26 | `handleStart` performs the start step and keeps the invariant |
| Timer.AttemptTimer.OnStartSignal | src/components/Timer.js:75-79 | the start-signal effect starts the attempt only from idle and keeps the invariant |
| Timer.AttemptTimer.NextPhase | src/components/Timer.js:30-55 | `handleNextPhase` updates the fields exactly as the advance step and keeps the invariant |
| Timer.AttemptTimer.SeeSolution | src/components/Timer.js:57-71 | `handleSeeSolution` updates the fields exactly as the see-solution step and keeps the invariant |
| Timer.AttemptTimer.Tick | src/components/Timer.js:82-93 | one run of the countdown effect performs the tick step and keeps the invariant |
| Home.Slug | src/pages/index.js:35 | `split('/problems/')[1]` is absent iff the marker never occurs; otherwise it is the text right after the first occurrence, up to the next occurrence or the end of the URL, and holds no occurrence |
| Home.PipelineIsTitleCase | src/pages/index.js:35 | the split on `-`, capitalise and join-with-space pipeline equals turning dashes into spaces and upper-casing each word's first character |
| Home.SlugTitleShape | src/pages/index.js:35 | the fallback title has the length of the slash-free slug; dashes become spaces; the first character and every character after a dash are upper-cased; the rest are kept |
| Home.SlugTitle | src/pages/index.js:35 | the title has one character per character of the slash-free slug and holds no dash and no slash |
| Home.FallbackTitle | src/pages/index.js:35 | the fallback title is undefined iff the URL has no `/problems/`; otherwise it is the title built from the slug after the first `/problems/`, and holds no dash and no slash |
| Home.TwoSumTitle | src/pages/index.js:35 | the slug `two-sum/` gives the title `Two Sum` |
| Home.TwoSumUrlTitle | src/pages/index.js:35 | the URL `https://leetcode.com/problems/two-sum/` gives the fallback title `Two Sum` |
| Home.TitleOf | src/pages/index.js:38 | a given title is kept; without one the title is the URL's fallback title, undefined iff the URL has no `/problems/` |
| Home.DifficultyOf | src/pages/index.js:39 | the stored difficulty is never empty; a given difficulty is kept and a missing one becomes `N/A` |
| Home.TopicsOf | src/pages/index.js:40 | a topics string becomes its comma-separated pieces, each trimmed, one per piece; a topics list is kept as it is; missing topics become the empty list |
| Home.ImportQuestion | src/pages/index.js:36-45 | the entry is stored under the record's URL with its title and a non-empty difficulty; an existing entry's counts, status and history survive, and a new one starts at 0, 0, Not Started and no history |
| Home.ImportAll | src/pages/index.js:32-46 | the import never removes a stored question, and the missing URL never becomes a key |
| Home.NewPlaylist | src/pages/index.js:27-31 | the new playlist lists one URL per record, in record order, with an empty speedrun history |
| Home.ImportAllStep | src/pages/index.js:32-46 | one more record of the `forEach` writes its entry on top of the import so far, unless it has no URL |
| Home.ImportAllKeys | src/pages/index.js:32-46 | the import adds exactly the URLs of records that have one, and leaves every other question entry untouched |
| Home.ImportKeepsProgress | src/pages/index.js:41-44 | a re-imported URL keeps its attempt counts, status and history; a new URL starts at 0, 0, Not Started and no history |
| Home.ImportTakesLastRecord | src/pages/index.js:33-40 | title (given or fallback), difficulty (default N/A) and topics of an entry come from the last record naming its URL |
| Home.IsPlaylistComplete | src/pages/index.js:74-77 | false for a missing playlist; otherwise true iff every listed URL has a Completed question, so an empty playlist counts as complete |
| Home.UrlLessRecordBlocksCompletion | src/pages/index.js:27-34 | a URL-less record still takes a place in the URL list but creates no entry, so that playlist can never count as complete |
| Home.HomePage.constructor | src/pages/index.js:10-12 | the page starts with no playlists, no questions and both pop-ups closed |
| Home.HomePage.Load | src/pages/index.js:15-18 | the mount effect replaces the playlists and questions with the stored ones |
| Home.HomePage.SavePlaylist | src/pages/index.js:20-50 | an existing name is refused with nothing changed; otherwise the playlist is added, the questions become the import of the records, and the modal closes |
| Home.HomePage.DeletePlaylist | src/pages/index.js:53-66 | deleting removes only that name; every other playlist and every question stay, and the dropdown closes |
| Home.HomePage.StartClick | src/pages/index.js:68-72 | the start button toggles the dropdown only when some playlist exists |
| Home.HomePage.SelectPlaylist | src/pages/index.js:79-87 | a complete playlist routes to its speedrun page, anything else to its solve page, and the dropdown closes |
| AddPlaylistModal.NonBlankLines | src/components/AddPlaylistModal.js:42 | the filter keeps only non-blank lines, unchanged, and is empty iff every line is blank |
| AddPlaylistModal.NonBlankLinesConcat | src/components/AddPlaylistModal.js:42 | the filter distributes over concatenation, so kept lines keep their order |
| AddPlaylistModal.NonBlankLinesCounts | src/components/AddPlaylistModal.js:42 | every non-blank line is kept exactly as often as it occurs, and no blank line is kept |
| AddPlaylistModal.NonBlankTextHasLine | src/components/AddPlaylistModal.js:38-42 | text that is not blank has at least one non-blank line |
| AddPlaylistModal.LineRecords | src/components/AddPlaylistModal.js:42-44 | the records' URLs are the non-blank lines, untrimmed and in order, and each record carries only its URL; no URL is blank; non-blank text gives at least one record |
| AddPlaylistModal.LineRecordsKeepEveryLine | src/components/AddPlaylistModal.js:42-44 | each non-blank line of the text becomes a record URL exactly as often as it occurs, and no blank line does |
| AddPlaylistModal.ManualSave | src/components/AddPlaylistModal.js:37-46 | refused iff the name or the text is blank; otherwise the untrimmed name and the line records are passed on, at least one of them |
| AddPlaylistModal.FileImport | src/components/AddPlaylistModal.js:8-35 | no file stops silently; a blank name is refused before parsing; a parser error gets the parse-failure alert, and an empty result or a URL-less first row gets the missing-url alert; otherwise the rows are passed on as parsed |
| AddPlaylistModal.ManualSaveHasNoDanglingUrl | src/components/AddPlaylistModal.js:42-45 | after a manual save every URL of the new playlist has a question entry |
| Percentage.RoundedPercent | src/components/PlaylistSidebar.js:12 | `Math.round(100·c/n)` is the integer nearest to the exact percentage, halves rounded up |
| Percentage.RoundedPercentUnique | src/components/PlaylistSidebar.js:12 | that nearest-integer property determines the result |
| Percentage.RoundedPercentBounds | src/components/PlaylistSidebar.js:12 | a share between none and all gives a percentage in 0..100 |
| Percentage.RoundedPercentEnds | src/components/PlaylistSidebar.js:12 | all gives 100 and none gives 0 |
| Percentage.RoundedPercentMonotone | src/components/PlaylistSidebar.js:12 | a larger share never gives a smaller percentage |
| Percentage.FullPercentThreshold | src/components/OverallStats.js:8 | 100 is shown iff at least 199 of every 200 are done |
| PlaylistSidebar.CompletedCount | src/components/PlaylistSidebar.js:8-10 | the completed count never exceeds the number of URL positions |
| PlaylistSidebar.CompletedCountConcat | src/components/PlaylistSidebar.js:8-10 | the count is additive over concatenation, so it counts once per position and a duplicate URL counts twice |
| PlaylistSidebar.CompletedCountFull | src/components/PlaylistSidebar.js:8-10 | every position counts iff every URL has a Completed question |
| PlaylistSidebar.CompletedCountZero | src/components/PlaylistSidebar.js:8-10 | no position counts iff no URL has a Completed question; a missing question counts as not completed |
| PlaylistSidebar.CalculateCompletion | src/components/PlaylistSidebar.js:5-13 | 0 for an empty URL list, otherwise the rounded completed share; always within 0..100 |
| PlaylistSidebar.CompletionEnds | src/components/PlaylistSidebar.js:8-12 | a non-empty playlist shows 100 when every URL is completed (as the home page's completion check means it) and 0 when none is |
| PlaylistSidebar.CompletedCountMonotone | src/components/PlaylistSidebar.js:8-10 | storing a Completed question under any URL never lowers the count |
| PlaylistSidebar.CompletionMonotone | src/components/PlaylistSidebar.js:5-13 | marking a question completed never lowers any playlist's percentage |
| PlaylistSidebar.SidebarProgress | src/components/PlaylistSidebar.js:30-45 | every playlist gets exactly one entry, that playlist's completion percentage, which lies in 0..100 |
| OverallStats.TotalQuestions | src/components/OverallStats.js:6 | the question count is zero iff there is no record |
| OverallStats.CompletedQuestions | src/components/OverallStats.js:7 | the completed count is at most the number of questions |
| OverallStats.CompletedQuestionsEnds | src/components/OverallStats.js:7 | the count is 0 iff no question is completed and the total iff all are |
| OverallStats.OverallPercentage | src/components/OverallStats.js:8 | 0 with no questions, otherwise the rounded completed share; within 0..100, and 100 iff at least 199 of every 200 are completed |
| OverallStats.TotalAttempts | src/components/OverallStats.js:9 | with non-negative counters the `reduce` total is non-negative |
| OverallStats.TotalAttemptsCoversEach | src/components/OverallStats.js:9 | with non-negative counters the total is at least each question's attempts |
| OverallStats.AttemptsConcat | src/components/OverallStats.js:9 | the total is additive over concatenation |
| OverallStats.StatsOrderFree | src/components/OverallStats.js:4-9 | totals, completed count, attempts and percentage do not depend on the order `Object.values` enumerates the records in |
| PlaylistDetails.DifficultyColor | src/components/PlaylistDetails.js:4-11 | easy, medium and hard in any letter case get green, yellow and red; anything else, a missing value included, gets the default colour; each in both directions |
| PlaylistDetails.DifficultyColorIgnoresCase | src/components/PlaylistDetails.js:5 | spellings differing only in letter case get the same colour |
| PlaylistDetails.RemainderBounds | src/components/PlaylistDetails.js:16 | `%` by 60 keeps the sign of the dividend and stays below 60 in size |
| PlaylistDetails.FormatDuration | src/components/PlaylistDetails.js:13-18 | the text is `N/A` exactly for zero seconds |
| PlaylistDetails.DurationParts | src/components/PlaylistDetails.js:15-17 | for a positive duration the text is `<m>m <s>s` with m ≥ 0, s in 0..59 and 60·m + s the whole seconds of the duration |
| PlaylistDetails.WholeSecondsDuration | src/components/PlaylistDetails.js:13-18 | a whole positive number of seconds shows as its quotient and remainder by 60 |
| PlaylistDetails.MinTotalTime | src/components/PlaylistDetails.js:25 | `Math.min` over the total times is at most each of them and equal to one of them |
| PlaylistDetails.BestSpeedrun | src/components/PlaylistDetails.js:24-26 | null iff the history is empty, otherwise the smallest total time recorded |
| PlaylistDetails.SpeedrunBanner | src/components/PlaylistDetails.js:32-36 | the banner appears iff there is a best time other than 0, shows it formatted, and never reads N/A |
| PlaylistDetails.SumTotalTime | src/components/PlaylistDetails.js:54 | the `reduce` sum of the total times is non-negative while every time is |
| PlaylistDetails.AverageTime | src/components/PlaylistDetails.js:53-55 | 0 for an empty history, otherwise the exact mean: times the count it gives the sum |
| PlaylistDetails.SumTotalTimeBetween | src/components/PlaylistDetails.js:54 | the `reduce` sum of n times within lo..hi lies within n·lo..n·hi |
| PlaylistDetails.AverageBetween | src/components/PlaylistDetails.js:53-55 | the mean lies between the shortest and the longest attempt |
| PlaylistDetails.RowAverageShown | src/components/PlaylistDetails.js:53-63 | a never-attempted question shows N/A; one whose times add up to anything but 0 shows a duration |
| PlaylistDetails.RowOf | src/components/PlaylistDetails.js:57-64 | a row keys on the URL and shows the title, difficulty, status and attempts as stored; its colour is the difficulty's colour, the default iff the difficulty is not easy, medium or hard in any case; its average is the formatted average time, N/A iff that average is zero |
| PlaylistDetails.PresentQuestions | src/components/PlaylistDetails.js:51-52 | the looked-up questions of the listed URLs (line 21), missing ones dropped: empty iff none exists, and position for position when all exist |
| PlaylistDetails.PresentQuestionsConcat | src/components/PlaylistDetails.js:51-52 | the rows of a concatenated URL list are the rows of each part in turn, so rows follow playlist order |
| PlaylistDetails.PresentQuestionsListed | src/components/PlaylistDetails.js:51-52 | every row shows the entry of a URL the playlist lists and the store holds |
| PlaylistDetails.DetailRows | src/components/PlaylistDetails.js:51-65 | one row per present question, in order, showing its title, difficulty, colour, status, attempts and formatted average |

## Left out

- Storage (`src/utils/storage.js`) is not part of this model. Loading is the parameter of `Home.HomePage.Load`; every `saveStoredData` write is I/O and is not modelled.
- Real time is not modelled. `setInterval`, `clearInterval`, React's batching of state updates and effect scheduling become explicit `Tick` calls, one per elapsed second. The immediate re-run of the effect at zero is the next `Tick`.
- `onComplete` is modelled as appending to the field `emitted`; what the parent does with the record is outside these files.
- The phase captions, the time's-up warning, all JSX and all styles are rendering only.
- `alert` is modelled as an error result (`ImportError`, `DuplicateName`). `console.error` and resetting the file input after a blank name are not modelled.
- `router.push` is modelled as the returned `Route`. The `encodeURIComponent` of the name in the path is not modelled; the route carries the raw name.
- Papa.parse is a third-party parser. Its result is the parameter `CsvOutcome` of `AddPlaylistModal.FileImport`, and only the guards around it are modelled. A missing `url`, `title` or `difficulty` field is the empty string, because the code tests these fields with `!` and `||`.
- Timer.AttemptTimer.SeeSolution: requires a running phase. Its button is rendered only then (`src/components/Timer.js:136`). `Timer.Apply` models a press in any other phase as doing nothing.
- Timer.AttemptTimer.Start: requires the idle phase. Its only caller, the start-signal effect, runs it only then (`src/components/Timer.js:76`).
- Home.SlugTitleShape: upper-cases ASCII letters only. `toUpperCase` on a non-ASCII first letter (`é`, or `ß` becoming two letters) is not modelled.
- PlaylistDetails.DifficultyColor: lower-cases ASCII letters only. Full Unicode lower-casing could map further characters to ASCII letters, such as the Kelvin sign to `k`, but no such character occurs in `easy`, `medium` or `hard`.
- PlaylistDetails.FormatDuration: durations are exact reals. The `isNaN` test, floating-point rounding and `-0` are not modelled.
- Percentage.RoundedPercent: computes in exact rationals. The floating-point quotient that `Math.round` sees can differ from it at exact halves.
- PlaylistDetails.BestSpeedrun: the `RangeError` that `Math.min(...list)` raises on very long lists is not modelled.
- OverallStats works on the sequence `Object.values` returns. The map's enumeration order is not modelled, and `OverallStats.StatsOrderFree` shows that the figures do not depend on it. Likewise the order of `Object.keys` in the sidebar is not modelled; `PlaylistSidebar.SidebarProgress` is a map.
- Stored question entries are taken to be well formed. The `|| 0`, `|| 'Not Started'` and `|| []` fallbacks for an existing entry whose fields are missing are therefore not modelled, and neither is a playlist without `urls` (`!playlist.urls`).
- Names and URLs that coincide with inherited object properties (`constructor`, `__proto__`) are not modelled. For example, `appData.playlists['constructor']` is truthy in JavaScript, so such a name would be refused as a duplicate.
- The spread `...newAppData.questions[url]` keeps any stored fields beyond those the save writes. The model's question record has exactly the written fields.
- Duplicate React row keys for a URL listed twice are a rendering matter and are not modelled.
