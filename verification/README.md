# SOUL SYNC core logic in Dafny

SOUL SYNC is a mental-wellness chat web application. Most of it is page markup and calls to hosted
services. This project models the four pieces of pure, sequential logic in it and proves properties of
them:

- **The chat route** (`ChatRoute`, `chat_route.dfy`). The route rejects a request that has no message.
  It builds the prompt for the language model: the prior turns, then one user turn. It labels the user's
  message by keyword matching. The crisis keywords are checked first and win unconditionally. Otherwise
  the first matching row among sad, anxious, angry, happy and calm gives the label. With no match the
  label is neutral.
- **The chat page** (`ChatSession`, `chat_session.dfy`). The page has its own, different crisis list
  (`DetectCrisis`). Its handlers are modelled as pure state updates: send a message, receive the reply,
  choose a mood, type.
- **The mood tracker** (`MoodTracker`, `mood_tracker.dfy`). This covers adding an entry and the day
  streak. The streak is computed as the page does it: distinct days, sorted newest first, the newest day
  must be today or yesterday, then the run of consecutive days is counted. It also covers the number of
  distinct days, the average, best and worst scores, the 30-entry trend window and the per-score
  distribution.
- **The 4-4-4 breathing exercise** (`Breathing`, `breathing.dfy`). One tick of the one-second interval
  is one state transition.

`Text` (`text.dfy`) holds the string primitives: ASCII lower-casing, substring containment as
`includes` performs it, and `trim`. `Basics` (`basics.dfy`) holds `Option`.

Collaborators are parameters. The model call is a function from prompt to `Option<string>`, where
`None` means the call threw. The route's reply reaches the page as an `Option<ApiReply>`. "Today" is
a day number passed in. Each timestamp is its local calendar-day number.

Two edge cases of the code deserve a note:

- The route rejects only a missing or empty `message`, with HTTP 400. A blank but non-empty message
  such as `"  "` is classified, and is labelled `neutral`.
- `handleAddMood` does no range check on the score. The form can only hold 1 to 5: five buttons set it
  (app/mood-tracker/page.tsx:231-235), it starts at 5 (41) and is reset to 5 after a save (139). So
  `AddMood` requires a valid score.

## Model

| member | source | states |
|---|---|---|
| `Text.Contains` | app/api/chat/route.ts:103 | the scan is true exactly when the keyword occurs at some position of the text (plain substring containment, as `includes`) |
| `Text.ContainsAny` | app/api/chat/route.ts:103 | true exactly when some keyword of the list occurs in the text (`keywords.some(... includes ...)`) |
| `Text.ContainsTransitive` | app/api/chat/route.ts:107 | whatever occurs inside a keyword occurs wherever the keyword does, which is why a keyword inside a longer word still matches |
| `Text.AbsentCharNotContained` | app/chat/page.tsx:108 | a keyword with a character the text lacks cannot occur in it |
| `Text.Lower` | app/api/chat/route.ts:100 | `toLowerCase` on ASCII: the result has the input's length, and every character is the input's character with A-Z mapped to a-z and everything else unchanged |
| `Text.LowerIdempotent` | app/api/chat/route.ts:100 | lower-casing a lower-cased string changes nothing |
| `Text.TrimStart` | app/chat/page.tsx:113 | the result is a suffix of the input, everything dropped is whitespace, and it does not start with whitespace |
| `Text.TrimEnd` | app/chat/page.tsx:113 | the result is a prefix of the input, everything dropped is whitespace, and it does not end with whitespace |
| `Text.Trim` | app/chat/page.tsx:113 | `input.trim()` is the piece of the input that remains after dropping whitespace only, at both ends: what precedes and what follows it is all whitespace, and it is empty or neither starts nor ends with whitespace |
| `Text.TrimExample` | app/chat/page.tsx:113 | `" a ".trim()` is `"a"` |
| `Text.TrimEmptyIffBlank` | app/chat/page.tsx:113 | `input.trim()` is empty exactly when the input consists of whitespace only (both directions) |
| `ChatRoute.TableShape` | app/api/chat/route.ts:68-97 | the keyword table has six rows; the crisis row comes first and is the only crisis row; no row is labelled neutral |
| `ChatRoute.RowEmotionsDistinct` | app/api/chat/route.ts:68-97 | every row of the table carries a different label |
| `ChatRoute.ScanRows` | app/api/chat/route.ts:106-111 | the category loop never yields crisis; it yields neutral exactly when no non-crisis row matches; otherwise it yields the label of a matching non-crisis row with no matching non-crisis row before it |
| `ChatRoute.FirstMatchUnique` | app/api/chat/route.ts:106-110 | the first matching row is unique, so the loop's `break` picks one well-defined row |
| `ChatRoute.DetectEmotion` | app/api/chat/route.ts:99-112 | the label is crisis exactly when a crisis keyword occurs in the lower-cased message; it is neutral exactly when no keyword of any row occurs; without a crisis match, it is a row's label exactly when that row is the first matching row in the order sad, anxious, angry, happy, calm |
| `ChatRoute.DetectEmotionCaseInsensitive` | app/api/chat/route.ts:100 | the label depends only on the lower-cased message: messages equal after lower-casing get the same label |
| `ChatRoute.CrisisOverridesHappy` | app/api/chat/route.ts:102-104 | any message containing "want to die" is a crisis, whatever else it contains (e.g. "I feel happy but I want to die") |
| `ChatRoute.SadShadowsAngry` | app/api/chat/route.ts:106-110 | a message containing "hate myself" and no crisis keyword also matches the angry row (through "hate") yet is labelled sad, because sad comes first |
| `ChatRoute.KeywordInsideWord` | app/api/chat/route.ts:107 | "download" without a crisis keyword is labelled sad, because "down" occurs inside it |
| `ChatRoute.BuildPrompt` | app/api/chat/route.ts:50-56 | the prompt is the history (empty when absent), unchanged and in order, followed by exactly one user turn with the message; so it is one longer than the history |
| `ChatRoute.HandleChat` | app/api/chat/route.ts:41-122 | the status is 400 exactly when the message is missing or empty, and then the body is "Message is required" and nothing is classified; otherwise the status is 500 exactly when the model call fails; a 200 reply carries the model's text for the built prompt and the name of the message's label |
| `ChatRoute.ReplyEmotionIsKnown` | app/api/chat/route.ts:114-117 | an answered request's `emotion` is one of crisis, sad, anxious, angry, happy, calm, neutral |
| `ChatSession.DetectCrisis` | app/chat/page.tsx:24 | the page's detector is true exactly when one of its six keywords occurs in the lower-cased text |
| `ChatSession.DetectCrisisCaseInsensitive` | app/chat/page.tsx:107-109 | texts equal after lower-casing get the same answer |
| `ChatSession.RouteCrisisKeywordsAreLong` | app/api/chat/route.ts:69-74 | every route crisis keyword has more than four characters |
| `ChatSession.HarmIsClientCrisis` | app/chat/page.tsx:24 | "harm" raises the page's alert |
| `ChatSession.HarmIsNoRouteCrisis` | app/api/chat/route.ts:69-74 | no route crisis keyword occurs in "harm" |
| `ChatSession.DeathIsRouteCrisis` | app/api/chat/route.ts:73 | "death" is a route crisis keyword match |
| `ChatSession.DeathIsNoClientCrisis` | app/chat/page.tsx:24 | "death" does not raise the page's alert |
| `ChatSession.CrisisListsDiverge` | app/chat/page.tsx:24 | the two crisis lists disagree in both directions: "harm" alerts on the page but is no crisis for the route; "death" is a crisis for the route but raises no alert on the page |
| `ChatSession.HistoryOf` | app/chat/page.tsx:149-152 | the history sent has the transcript's length and order and its texts; a line is a user turn exactly when its sender is the user, every other line is an assistant turn |
| `ChatSession.SendMessage` | app/chat/page.tsx:111-153 | input blank after trimming leaves the whole state unchanged and posts nothing; otherwise exactly one user line with the input is appended after the unchanged earlier lines, the box is cleared, the alert becomes (old alert or page-detector match), and the request carries the input and the transcript from before the append |
| `ChatSession.ReceiveReply` | app/chat/page.tsx:156-189 | exactly one bot line is appended after the unchanged transcript: the answer with its label, or the fixed apology on failure; waiting stops and the alert and input are unchanged |
| `ChatSession.SelectMood` | app/chat/page.tsx:192-204 | the transcript becomes exactly one bot line, the mood's greeting, and the selector is hidden |
| `ChatSession.Step` | app/chat/page.tsx:111-204 | typing (326) changes only the input box; every event but a mood choice keeps the transcript as a prefix; a raised alert stays raised |
| `ChatSession.Run` | app/chat/page.tsx:111-204 | over any sequence of events with no mood choice, the transcript before is a prefix of the transcript after |
| `ChatSession.CrisisAlertIsSticky` | app/chat/page.tsx:129-131 | once raised, the crisis alert stays raised after any sequence of typing, sending, replies and mood choices |
| `ChatSession.CrisisInputRaisesAlert` | app/chat/page.tsx:129-131 | sending non-blank input the page's detector flags always raises the alert, and the input becomes the new last line |
| `ChatSession.SendFeedsRoutePrompt` | app/chat/page.tsx:147-153 | the prompt the route builds from a send's request has one turn per prior transcript line, with the same texts, plus the new user turn; so it is as long as the transcript after the send |
| `MoodTracker.LabelsAreDistinct` | app/mood-tracker/page.tsx:35 | the five labels are pairwise different, so a label determines its score |
| `MoodTracker.LabelDeterminesScore` | app/mood-tracker/page.tsx:35 | in a well-formed journal two entries with the same label have the same score, because the five labels differ |
| `MoodTracker.AddMood` | app/mood-tracker/page.tsx:124-132 | the new entry goes last with the chosen score, label `MOOD_LABELS[score - 1]`, the notes, the id and today's day; earlier entries are unchanged; a well-formed journal stays well formed |
| `MoodTracker.DaySet` | app/mood-tracker/page.tsx:109-114 | a day is in the set exactly when some entry was made on it |
| `MoodTracker.DaySetSize` | app/mood-tracker/page.tsx:109-115 | there are at most as many logged days as entries, and at least one once there is an entry |
| `MoodTracker.TotalDays` | app/mood-tracker/page.tsx:108-116 | the distinct-day count is at most the number of entries and is zero exactly for an empty journal |
| `MoodTracker.SameDayEntryKeepsTotalDays` | app/mood-tracker/page.tsx:109-115 | another entry on a day already logged leaves the set of days and their count unchanged |
| `MoodTracker.NewestDay` | app/mood-tracker/page.tsx:84 | the newest day is the day of some entry and no entry is later |
| `MoodTracker.NewestDayIsMaxDay` | app/mood-tracker/page.tsx:84 | the newest day is a logged day and is the largest of them |
| `MoodTracker.NewestDayOfSameDays` | app/mood-tracker/page.tsx:84 | journals with the same set of days have the same newest day |
| `MoodTracker.InsertDescending` | app/mood-tracker/page.tsx:68-74 | inserting a day keeps the list strictly descending, adds exactly that day, and grows the list by one only when the day was not yet present |
| `MoodTracker.ConsDescending` | app/mood-tracker/page.tsx:74 | a head above every element of a strictly descending list keeps it strictly descending |
| `MoodTracker.UniqueDaysDescending` | app/mood-tracker/page.tsx:68-74 | the list is strictly descending (newest first, no duplicates) and holds exactly the logged days, one per distinct day |
| `MoodTracker.RunFrom` | app/mood-tracker/page.tsx:93-103 | counts the positions from `i` on that are exactly one day before their predecessor, stopping at the first position that is not (or at the end) |
| `MoodTracker.NewestIsFirst` | app/mood-tracker/page.tsx:84 | the first day of the sorted list is the newest day |
| `MoodTracker.ConsecutivePrefix` | app/mood-tracker/page.tsx:93-103 | when the first steps of the list are one day each, position `j` holds the newest day minus `j` |
| `MoodTracker.RunIsStreak` | app/mood-tracker/page.tsx:92-105 | the count read off the sorted list is the maximal run of logged days ending at the newest day: every day of the run is logged and the day before it is not |
| `MoodTracker.Streak` | app/mood-tracker/page.tsx:64-106 | zero for an empty journal; zero when the newest day is neither today nor yesterday; otherwise at least 1, and exactly the length of the maximal run of consecutive logged days going back from the newest day |
| `MoodTracker.StreakOfUnique` | app/mood-tracker/page.tsx:92-105 | the maximal run ending at a day has one length only |
| `MoodTracker.StreakAtMostTotalDays` | app/mood-tracker/page.tsx:93 | the streak never exceeds the number of distinct days |
| `MoodTracker.SameDayEntryKeepsStreak` | app/mood-tracker/page.tsx:68-74 | another entry on a day already logged changes neither the streak nor the distinct-day count |
| `MoodTracker.StreakCountsBackFromToday` | app/mood-tracker/page.tsx:86-89 | a non-zero streak ends today or yesterday, and all its days are logged |
| `MoodTracker.DaySetOfThree` | app/mood-tracker/page.tsx:68-74 | the days of a three-entry journal are its three entries' days |
| `MoodTracker.StreakOfThreeDays` | app/mood-tracker/page.tsx:92-105 | entries on today-2, today-1 and today give a streak of 3 |
| `MoodTracker.StreakStopsAtGap` | app/mood-tracker/page.tsx:98-102 | entries on today-3, today-1 and today give a streak of 2: the missing today-2 ends the count |
| `MoodTracker.StreakNeedsTodayOrYesterday` | app/mood-tracker/page.tsx:86-89 | a single entry five days ago gives streak 0; a single entry yesterday gives streak 1 |
| `MoodTracker.SingleEntryToday` | app/mood-tracker/page.tsx:64-116 | a single entry today gives streak 1, one distinct day, and an average equal to its score |
| `MoodTracker.SumScores` | app/mood-tracker/page.tsx:157 | the sum of the scores is 0 for an empty journal, and lies between `n` and `5 * n` when every score is in 1..5 |
| `MoodTracker.BestMood` | app/mood-tracker/page.tsx:158 | 0 for an empty journal; otherwise a score some entry has, and no entry's score is higher |
| `MoodTracker.WorstMood` | app/mood-tracker/page.tsx:159 | 0 for an empty journal; otherwise a score some entry has, and no entry's score is lower |
| `MoodTracker.AverageMood` | app/mood-tracker/page.tsx:157 | the mean is 0 for an empty journal, and otherwise lies between the worst and the best score |
| `MoodTracker.SumBetween` | app/mood-tracker/page.tsx:157 | when all scores lie in [lo, hi], the sum of scores lies between `n * lo` and `n * hi` |
| `MoodTracker.MeanBetween` | app/mood-tracker/page.tsx:157 | a sum between `n * lo` and `n * hi` has its mean between `lo` and `hi` |
| `MoodTracker.AverageBetweenWorstAndBest` | app/mood-tracker/page.tsx:156-159 | an empty journal shows 0 for average, best and worst; otherwise worst <= average <= best; a well-formed journal keeps worst and best in 1..5 |
| `MoodTracker.AverageExample` | app/mood-tracker/page.tsx:157 | scores 2 and 4 average to 3 |
| `MoodTracker.TrendData` | app/mood-tracker/page.tsx:149-153 | the chart has `min(30, n)` points, the last entries of the journal in chronological order |
| `MoodTracker.TrendSlides` | app/mood-tracker/page.tsx:149 | adding an entry appends its point to the chart; once 30 points are shown, the oldest point drops off the front |
| `MoodTracker.CountScore` | app/mood-tracker/page.tsx:365 | a score's count never exceeds the number of entries |
| `MoodTracker.Distribution` | app/mood-tracker/page.tsx:362-383 | five bars, bar `s - 1` holding the number of entries with score `s` |
| `MoodTracker.ScoresOf` | app/mood-tracker/page.tsx:362-383 | the scores of the entries, in order |
| `MoodTracker.CountIsMultiplicity` | app/mood-tracker/page.tsx:362-383 | a bar's count is the multiplicity of its score among the scores |
| `MoodTracker.DistributionSumsToCount` | app/mood-tracker/page.tsx:362-383 | when every score is in 1..5 the five bars add up to the number of entries |
| `Breathing.NextPhase` | components/breathing-exercise.tsx:34-41 | the next phase always differs from the current one |
| `Breathing.PhasesCycle` | components/breathing-exercise.tsx:34-41 | three steps lead from a phase back to itself, passing through all three phases |
| `Breathing.Start` | components/breathing-exercise.tsx:19-26 | pressing start gives a valid, running exercise at the first tick of inhale with no cycle completed |
| `Breathing.Tick` | components/breathing-exercise.tsx:28-54 | a tick keeps a started exercise valid; a stopped exercise does not change; otherwise either only the count goes up by one, or the count restarts at 0 in the next phase and the cycle counter grows by one exactly when leaving exhale; the exercise stops exactly when that makes five cycles |
| `Breathing.CyclesAdvanceOnlyAfterExhale` | components/breathing-exercise.tsx:38-40 | the cycle counter never decreases; when it changes, the exercise went from exhale to inhale and the counter grew by exactly 1 |
| `Breathing.CountdownInRange` | components/breathing-exercise.tsx:81 | the countdown shown, `duration - count`, is between 1 and 4 |
| `Breathing.PhaseAtNext` | components/breathing-exercise.tsx:34-41 | phase number `k + 1` follows phase number `k`; phase number `k` is exhale exactly when `k % 3 == 2` |
| `Breathing.NextTickArithmetic` | components/breathing-exercise.tsx:29-40 | how count, phase number and cycle number move from one tick to the next |
| `Breathing.RunningState` | components/breathing-exercise.tsx:19-54 | for n < 60, after n ticks from start the exercise is running in phase number `n / 4`, with count `n % 4` and `n / 12` cycles done |
| `Breathing.StopsAfterFiveCycles` | components/breathing-exercise.tsx:42-47 | the exercise is running for the first 59 ticks; from the 60th tick on it is stopped at inhale with count 0 and five cycles |
| `Breathing.ReachableIsValid` | components/breathing-exercise.tsx:19-54 | every state reached from start has count below the phase duration and at most five cycles, and is stopped exactly when five cycles are done |

## Left out

- `Text.Lower`: `toLowerCase` is modelled on the ASCII letters A-Z only; every other character is left
  unchanged. The model errs in one direction only. Every keyword is ASCII, and A-Z are lowered as
  JavaScript lowers them, so every keyword match the model finds, JavaScript finds too. JavaScript can
  find more, because it maps some non-ASCII letters onto ASCII ones: U+212A KELVIN SIGN becomes `k`, so
  `"\u212Aill myself"` is a crisis for the route, but the model does not flag it. The route's real label
  is therefore the model's label or one earlier in the order crisis, sad, anxious, angry, happy, calm,
  neutral; for crisis detection the model can under-report but never over-report. Characters whose
  lower case has a different length are not modelled either; they shift positions but cannot break up
  an all-ASCII keyword match.
- The call to the hosted language model (system prompt, model name, temperature, token limit) is not
  modelled. It is a foreign network call, represented by the `generate` parameter of `HandleChat`.
- Reading the JSON request body is not modelled. A body that fails to parse, or a non-string `message`
  that makes `toLowerCase` throw, would also give the route's 500 reply; `message` is modelled as an
  optional string.
- The database inserts and queries, the `fetch` to the route, `localStorage` persistence and JSON
  parsing, loading chat history from the database, and the admin page are not modelled. They are I/O
  against hosted services or the browser.
- Message and entry ids from `Date.now()`, and `Date` timestamps, are not modelled. Ids are plain
  parameters, and the clock is replaced by day numbers with "today" as a parameter.
- `MoodTracker.Streak`: the streak compares millisecond timestamps divided by one day, and across a
  daylight-saving change that difference is not 1. The model uses day numbers, so it describes the
  intended calendar-day behaviour rather than that clock artefact.
- `MoodTracker.AverageMood`: the display rounds the mean with `toFixed(1)`. The model states bounds on
  the exact mean (a `real`) instead of the rounded string.
- The trend chart's formatted date label (`toLocaleDateString`) is not modelled. A point carries the
  day number.
- React rendering, scrolling, the loading spinner, the 30-second reflective prompt timer and the
  `setInterval` timer are not modelled. They are UI scheduling; a breathing `Tick` stands for one
  interval firing.
- The breathing exercise's phase captions ("Breathe In", "Hold", "Breathe Out") and colours are not
  modelled. They are display data in the phase table.
- The breathing exercise's "Cycle N of 5" caption is not modelled. It is display text computed from
  `count / 12`.
- The mood options' greeting texts are not modelled. They are a table in the mood selector component,
  so the greeting is a parameter of `SelectMood`.
- Random quote and prompt selection, authentication, theme switching, audio playback and static pages
  are not modelled. They are browser and library glue.
