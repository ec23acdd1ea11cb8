# 75 Hard challenge tracker — core model

A Dafny model of the core of a React Native habit tracker for the "75 Hard"
challenge: 75 consecutive days, each with seven mandatory tasks (two 45-minute
workouts, one outdoors; a gallon of water; ten pages of non-fiction; the diet;
no alcohol; a progress picture). The model covers

- the local database schema (`days`, `tasks`, `custom_todos`, `todo_subtasks`):
  row shapes, the text enumerations of day status and task type, column
  defaults on insert, keys and the ON DELETE CASCADE from todos to subtasks
  (module `Schema`, `schema.dfy`);
- the challenge rules as functions on the `days` and `tasks` tables: seeding a
  challenge, the per-day task query, the derived day status written after a task
  update, the missed-day check run when the app starts, the journal read and
  write, and the progress gallery query (module `Challenge`, `challenge.dfy`);
- the store object itself (module `Store`, `store.dfy`): class `Database` owns
  the four tables and the AUTOINCREMENT sequence of `tasks`; class
  `ChallengeStore` owns the cursor `currentDayId` and the cached views
  `todayTasks`, `daysPath` and `galleryImages`, and its methods perform
  `initApp`, `startChallenge`, `restartChallenge`, `toggleTask`,
  `completeTaskWithValue`, the three refreshes, `getJournal` and `saveJournal`
  as sequential updates of those fields, each proved against the table
  functions of `Challenge`;
- `formatTime`, shared by the Pomodoro screen and the timer component (module
  `Clock`, `clock.dfy`);
- the Pomodoro focus timer as a state machine over (time left, running, mode),
  with a class whose methods are the tick, reset, mode switch and play/pause
  handlers (module `Pomodoro`, `pomodoro.dfy`);
- the interstitial ad frequency cap and the always-on banner (module `Ads`,
  `ads.dfy`).

Modelling conventions:

- A table is a sequence of rows in rowid order. `days.id` is an INTEGER PRIMARY
  KEY, so days are in id order; task ids come from AUTOINCREMENT, whose sequence
  (`Database.nextTaskId`) is not reset by deleting rows, so a restart hands out
  fresh task ids.
- Calendar dates are integer day ordinals. The stored `YYYY-MM-DD` strings
  compare lexicographically in the same order as the dates they denote, so the
  string `<` of the missed-day check is integer `<` here. Day i of a challenge
  starting on `start` is dated `start + (i - 1)`.
- `!currentDayId` is JavaScript truthiness: both null and `0` mean "no current
  day" (`ChallengeStore.HasCurrentDay`).
- `every` over an empty list is true: a current day with no task rows is
  re-derived as `completed`.
- The transaction of `startChallenge` is the method `SeedChallenge`, which builds
  all rows in its loop without touching the database; `StartChallenge` then
  replaces both tables at once, so the transaction commits all of it or nothing.
- The store keeps the invariant "every active day is the current day"
  (`Challenge.ActiveIsCursor`). Together with unique day ids this means at most
  one day is active. Seeding establishes it. `initApp` establishes it on a
  database with at most one active day. Toggling, completing and saving notes
  preserve it.
- Three behaviours of the code worth knowing:
  - A `failed` day is not terminal in the code. `toggleTask` and
    `completeTaskWithValue` re-derive the current day's status and overwrite
    `failed` with `active` or `completed` (`Challenge.ToggleOverwritesFailed`).
    The Today screen is what keeps a failed day from being toggled.
  - Nothing advances the active day to the next day when a day is completed.
    Only the start-up check moves the cursor to a day other than day 1;
    starting a challenge sets it to day 1.
  - Restarting deletes days and tasks only. Custom todos and their subtasks
    stay.

## Model

| member | source | states |
|---|---|---|
| `Schema.ParseStatus` | src/db/schema.ts:6 | the four texts the column's type admits are mapped one-to-one to the four statuses, each reading as the status written as that text; any other text has no status |
| `Schema.StatusTextRoundTrip` | src/db/schema.ts:6 | every status is stored as text that reads back as the same status |
| `Schema.ParseType` | src/db/schema.ts:13-15 | the seven texts the column's type admits are mapped one-to-one to the seven task types, each reading as the type written as that text; any other text has no type |
| `Schema.TypeTextRoundTrip` | src/db/schema.ts:13-15 | every task type is stored as text that reads back as the same type |
| `Schema.InsertDay` | src/db/schema.ts:3-8 | an inserted day keeps its id and date, has null notes, and gets status `locked` when none is given |
| `Schema.InsertTask` | src/db/schema.ts:10-18 | an inserted task keeps its id, day, type and optional value, and starts out not completed |
| `Schema.InsertTodo` | src/db/schema.ts:20-26 | an inserted custom todo keeps its day, title and optional description, and starts out not completed |
| `Schema.InsertSubtask` | src/db/schema.ts:28-33 | an inserted subtask keeps its todo and content, and starts out not completed |
| `Schema.RemoveTodo` | src/db/schema.ts:20-21 | deleting a todo keeps exactly the todos with another id |
| `Schema.CascadeSubtasks` | src/db/schema.ts:30 | the cascade keeps exactly the subtasks of other todos |
| `Schema.SubtasksOf` | src/db/schema.ts:28-30 | the per-todo subtask query returns exactly the subtasks referring to that todo |
| `Schema.CascadeLeavesNoOrphans` | src/db/schema.ts:30 | after the cascade no subtask refers to the deleted todo |
| `Schema.CascadeKeepsOtherSubtasks` | src/db/schema.ts:30 | the cascade leaves every other todo's subtasks unchanged and in order |
| `Schema.CascadeWithoutChildren` | src/db/schema.ts:30 | the cascade changes nothing when the todo has no subtasks |
| `Challenge.TemplateIndex` | src/store/challengeStore.ts:120-128 | each of the seven task types occurs exactly once in the daily task list |
| `Challenge.DailyRows` | src/store/challengeStore.ts:119-131 | every seeded day receives seven task rows |
| `Challenge.SeedDaysShape` | src/store/challengeStore.ts:105-115 | after seeding, exactly days 1..75 exist in id order; day i is dated start + (i - 1); day 1 is active and every other day locked; no day has notes |
| `Challenge.SeedTasksShape` | src/store/challengeStore.ts:101-131 | seeding replaces the task table by 525 tasks with fresh increasing ids, each incomplete, carrying its type's fixed description, and owned by one of the days 1..75 |
| `Challenge.SeedOneTaskPerType` | src/store/challengeStore.ts:120-131 | each seeded day owns exactly seven consecutive task rows, and each task type appears among them exactly once |
| `Challenge.TasksOfDay` | src/store/challengeStore.ts:144-146 | the per-day query returns exactly the task rows of that day |
| `Challenge.SeedTasksOfDay` | src/store/challengeStore.ts:120-146 | on a freshly seeded table, the per-day query returns exactly the seven rows inserted for that day, in list order, and nothing for any day outside 1..75 |
| `Challenge.DerivedStatus` | src/store/challengeStore.ts:168-173 | the re-derived status is `completed` if and only if every task of the day is completed, and `active` otherwise |
| `Challenge.FirstActive` | src/store/challengeStore.ts:67-69 | finds the first active day in id order, or reports that no day is active |
| `Challenge.FindDay` | src/store/challengeStore.ts:185 | finds a row with the given id exactly when such a row exists; with unique ids it finds that very row |
| `Challenge.JournalOf` | src/store/challengeStore.ts:182-187 | the journal read returns only non-empty notes, and only notes stored on that day's row; with no such row it returns null; with unique ids it returns that row's notes, empty notes reading as null |
| `Challenge.SetTaskCompleted` | src/store/challengeStore.ts:162 | only the rows with that task id change, and only their `completed` flag |
| `Challenge.SetTaskDone` | src/store/challengeStore.ts:217-220 | only the rows with that task id change, to completed with the given value |
| `Challenge.SetDayStatus` | src/store/challengeStore.ts:176 | only the rows with that day id change, and only their status |
| `Challenge.SetDayNotes` | src/store/challengeStore.ts:192 | only the rows with that day id change, and only their notes |
| `Challenge.ToggleEffect` | src/store/challengeStore.ts:157-180 | a toggle sets only the toggled task's flag to `!currentStatus`, and rewrites only the current day's status: `completed` if and only if all its tasks are now completed, else `active` |
| `Challenge.CompleteEffect` | src/store/challengeStore.ts:212-229 | a completion marks only that task completed with the value, and re-derives only the current day's status |
| `Challenge.ResumeEffect` | src/store/challengeStore.ts:67-83 | at start-up the first active day alone becomes `failed` when its date is before today, and the cursor moves to it either way; with no active day nothing changes |
| `Challenge.ResumeEstablishesCursor` | src/store/challengeStore.ts:67-83 | on a table with at most one active day, after the start-up check every active day is the cursor's day |
| `Challenge.GallerySpec` | src/store/challengeStore.ts:195-207 | the gallery holds an image exactly for each completed `pic` task whose value starts with `file://` |
| `Challenge.GalleryMatchesSpec` | src/store/challengeStore.ts:195-209 | the query, map and filter pipeline yields exactly those images in table order as (task id, value, day id); a null value counts as `''` and is dropped |
| `Challenge.CursorMeansSingleActive` | src/store/challengeStore.ts:67-69 | if every active day is the cursor's day and day ids are unique, at most one day is active |
| `Challenge.SameKeysKeepConsistent` | src/db/schema.ts:4-12 | updates that change no key keep the day ids, the ordered keys, the foreign key from tasks to days, and the id-sequence bound |
| `Challenge.UpdatesKeepKeys` | src/store/challengeStore.ts:162-176 | toggling and completing change no key of either table |
| `Challenge.SeedEstablishesCursor` | src/store/challengeStore.ts:105-135 | after seeding with the cursor on day 1, day 1 is the only active day |
| `Challenge.UpdatesKeepCursor` | src/store/challengeStore.ts:172-176 | toggling and completing keep every active day at the cursor |
| `Challenge.ToggleKeepsInvariants` | src/store/challengeStore.ts:157-180 | a toggle preserves table consistency, the id-sequence bound and the cursor invariant |
| `Challenge.CompleteKeepsInvariants` | src/store/challengeStore.ts:212-229 | a completion preserves table consistency, the id-sequence bound and the cursor invariant |
| `Challenge.NotesKeepCursor` | src/store/challengeStore.ts:189-193 | writing notes keeps every key and every active day at the cursor |
| `Challenge.SetTaskCompletedUndo` | src/store/challengeStore.ts:162 | setting a task's flag to `!c` and back to `c` restores the task table when its flag was `c` |
| `Challenge.SetDayStatusUndo` | src/store/challengeStore.ts:176 | overwriting a day's status and writing the old status back restores the day table |
| `Challenge.ToggleTwiceRestores` | src/store/challengeStore.ts:157-176 | toggling a task with flag `c` with `c`, then with `!c`, restores the task table, and also the day table when the day's status already was the derived one |
| `Challenge.SetTaskDoneIdempotent` | src/store/challengeStore.ts:217-220 | marking a task done twice with the same value equals doing it once |
| `Challenge.SetDayStatusIdempotent` | src/store/challengeStore.ts:229 | writing the same day status twice equals writing it once |
| `Challenge.CompleteIdempotent` | src/store/challengeStore.ts:212-229 | completing a task twice with the same value gives the same tables as completing it once |
| `Challenge.ToggleOverwritesFailed` | src/store/challengeStore.ts:172-176 | a toggle on a `failed` current day rewrites its status to `active` or `completed` |
| `Challenge.FirstToggleKeepsDayActive` | src/store/challengeStore.ts:157-176 | on a fresh challenge, completing one of day 1's tasks leaves day 1 active and every other day unchanged |
| `Challenge.NotesReadBack` | src/store/challengeStore.ts:185-192 | after saving notes for a day, looking that day up finds the same row with the new notes, when the row exists |
| `Challenge.SaveThenGet` | src/store/challengeStore.ts:182-193 | saving a note and reading the journal back yields the note, except that `''` or a missing day row reads back as null |
| `Challenge.SaveTouchesOnlyNotes` | src/store/challengeStore.ts:192 | saving notes changes only the notes column, and only on that day's rows |
| `Store.Database.constructor` | src/db/schema.ts:3-33 | the opened database holds the given well-formed tables |
| `Store.Database.DeleteTodo` | src/db/schema.ts:30 | deleting a todo removes it and every subtask of it, keeping the other rows in order |
| `Store.SeedChallenge` | src/store/challengeStore.ts:99-133 | the 75-iteration loop builds exactly the seeded day and task tables, and advances the task id sequence by 525 |
| `Store.ChallengeStore.constructor` | src/store/challengeStore.ts:31-36 | the store starts uninitialized, with no current day and empty cached views |
| `Store.ChallengeStore.RefreshToday` | src/store/challengeStore.ts:140-148 | today's tasks become the current day's task rows; without a current day nothing changes |
| `Store.ChallengeStore.RefreshPath` | src/store/challengeStore.ts:150-155 | the path becomes every day row, in ascending id order |
| `Store.ChallengeStore.RefreshGallery` | src/store/challengeStore.ts:195-210 | the gallery becomes the completed local-file photos of the task table |
| `Store.ChallengeStore.InitApp` | src/store/challengeStore.ts:64-88 | runs the missed-day check on the tables and the cursor, leaves the other tables alone, refreshes both views, sets the initialized flag, and establishes the cursor invariant when at most one day was active |
| `Store.ChallengeStore.StartChallenge` | src/store/challengeStore.ts:95-138 | replaces days and tasks by the seeded tables, leaves custom todos and subtasks untouched, moves the cursor to day 1, and loads day 1's seven tasks and the full path |
| `Store.ChallengeStore.RestartChallenge` | src/store/challengeStore.ts:90-93 | restarting is a start dated today: the seeded tables, the cursor on day 1, custom todos and subtasks untouched |
| `Store.ChallengeStore.ToggleTask` | src/store/challengeStore.ts:157-180 | does nothing without a current day; otherwise applies the toggle to the tables and reloads today's tasks and the path, keeping every invariant |
| `Store.ChallengeStore.CompleteTaskWithValue` | src/store/challengeStore.ts:212-232 | does nothing without a current day; otherwise applies the completion and reloads today's tasks, the path and the gallery, keeping every invariant |
| `Store.ChallengeStore.GetJournal` | src/store/challengeStore.ts:182-187 | returns null without a current day, and otherwise the current day's non-empty notes, or null |
| `Store.ChallengeStore.SaveJournal` | src/store/challengeStore.ts:189-193 | overwrites only the current day's notes, and does nothing without a current day |
| `Clock.DecimalString` | src/app/screens/PomodoroScreen.tsx:39 | a number is written as decimal digits: one digit below 10, two digits from 10 to 99, and no leading zero |
| `Clock.DecimalRoundTrip` | src/app/screens/PomodoroScreen.tsx:39 | the decimal digits of a number read back as that number |
| `Clock.PadShape` | src/app/components/PomodoroTimer.tsx:13 | a part below 10 gets exactly one leading '0'; from 10 on it is written without a leading '0'; a part below 100 is two characters |
| `Clock.FormatTimeParts` | src/app/components/PomodoroTimer.tsx:10-13 | the result is the padded minutes, a ':', and the two-character seconds part, whose value is between 0 and 59 |
| `Clock.FormatTimeShort` | src/app/components/PomodoroTimer.tsx:10-14 | below 6000 seconds the result is exactly five characters "MM:SS" with ':' at index 2 |
| `Clock.FormatTimeRoundTrip` | src/app/screens/PomodoroScreen.tsx:36-40 | the formatted time reads back as the number of seconds it was made from |
| `Pomodoro.Duration` | src/app/screens/PomodoroScreen.tsx:5-6 | focus lasts 1500 seconds and a break 300 |
| `Pomodoro.TickStep` | src/app/screens/PomodoroScreen.tsx:17-24 | at one second or less a tick sets the time left to zero and stops the timer; above one second it takes off exactly one second and changes nothing else; the mode is kept and the time left never becomes negative or larger |
| `Pomodoro.ResetStep` | src/app/screens/PomodoroScreen.tsx:42-45 | reset stops the timer and refills the current mode's full duration, keeping the mode |
| `Pomodoro.ToggleModeStep` | src/app/screens/PomodoroScreen.tsx:47-52 | a mode switch stops the timer, changes the mode, and loads the new mode's full duration |
| `Pomodoro.PlayPauseStep` | src/app/screens/PomodoroScreen.tsx:66 | play/pause flips only the running flag |
| `Pomodoro.InitialInRange` | src/app/screens/PomodoroScreen.tsx:5-11 | the timer starts stopped, in focus mode, at 1500 seconds |
| `Pomodoro.TransitionsKeepRange` | src/app/screens/PomodoroScreen.tsx:17-24 | a tick and play/pause keep the time left between 0 and the current mode's duration |
| `Pomodoro.ResetAndToggleRestoreRange` | src/app/screens/PomodoroScreen.tsx:42-52 | reset and mode switch always land within range |
| `Pomodoro.ToggleModeTwice` | src/app/screens/PomodoroScreen.tsx:47-52 | switching the mode twice returns to the original mode at full duration, stopped |
| `Pomodoro.PlayPauseTwice` | src/app/screens/PomodoroScreen.tsx:66 | pressing play/pause twice changes nothing |
| `Pomodoro.CountingDown` | src/app/screens/PomodoroScreen.tsx:14-26 | while more than k seconds are left, k ticks of a running timer take off exactly k seconds and keep it running |
| `Pomodoro.CountdownEnds` | src/app/screens/PomodoroScreen.tsx:14-26 | a running timer with t seconds left stops at zero after exactly t ticks, and further ticks change nothing |
| `Pomodoro.FullPeriod` | src/app/screens/PomodoroScreen.tsx:17-45 | reset then play runs for exactly the mode's full duration before stopping at zero |
| `Pomodoro.DisplayFitsFiveCharacters` | src/app/screens/PomodoroScreen.tsx:61 | within range the time left is displayed as exactly five characters "MM:SS" |
| `Pomodoro.PomodoroTimer.constructor` | src/app/screens/PomodoroScreen.tsx:9-11 | the screen's state starts as the initial state, within range |
| `Pomodoro.PomodoroTimer.Tick` | src/app/screens/PomodoroScreen.tsx:17-24 | one firing of the interval performs the tick transition on the state variables and keeps the time left within range |
| `Pomodoro.PomodoroTimer.Reset` | src/app/screens/PomodoroScreen.tsx:42-45 | the reset handler performs the reset transition and lands within range |
| `Pomodoro.PomodoroTimer.ToggleMode` | src/app/screens/PomodoroScreen.tsx:47-52 | the mode switch handler performs the mode switch transition and lands within range |
| `Pomodoro.PomodoroTimer.PlayPause` | src/app/screens/PomodoroScreen.tsx:66 | the play/pause button performs the play/pause transition and keeps the time left within range |
| `Pomodoro.PomodoroTimer.Display` | src/app/screens/PomodoroScreen.tsx:61 | the timer text is the formatted time left, five characters with ':' at index 2 |
| `Ads.ShowStep` | src/app/utils/AdService.ts:16-35 | a request whose ad is closed before the next request: it is shown exactly when the timestamp is 0 or at least three days have passed; the timestamp then becomes the close time, and otherwise stays |
| `Ads.ShouldShowBanner` | src/app/utils/AdService.ts:42-44 | the banner is always shown |
| `Ads.CapIsThreeDays` | src/app/utils/AdService.ts:13 | the cap duration is 259,200,000 milliseconds, three days |
| `Ads.FirstRequestNeverCapped` | src/app/utils/AdService.ts:12-19 | with the timestamp at its initial 0, every request is shown |
| `Ads.CappedChangesNothing` | src/app/utils/AdService.ts:19-22 | a request is refused exactly when the timestamp is nonzero and less than three days old, and a refused request changes nothing |
| `Ads.CappedAfterClose` | src/app/utils/AdService.ts:19-34 | after an ad closed at a nonzero time t, every request less than three days after t is refused, and from three days on the next ad is shown |
| `Ads.InterstitialService.constructor` | src/app/utils/AdService.ts:12 | the timestamp starts at 0 |
| `Ads.OpenAdDoesNotCap` | src/app/utils/AdService.ts:19-35 | while an opened ad is not yet closed the timestamp is unchanged, so any later request is not capped either and opens a second ad |
| `Ads.InterstitialService.ShowInterstitial` | src/app/utils/AdService.ts:16-30 | a request opens the ad exactly when the timestamp is 0 or at least three days old, and writes nothing |
| `Ads.InterstitialService.CloseAd` | src/app/utils/AdService.ts:31-35 | closing the ad records the close time as the timestamp and resolves the request to true |

## Left out

- The profile and welcome-screen functions of the store (`setUserProfile`, `setHasSeenWelcome`, `checkWelcomeStatus`) persist through AsyncStorage. They are storage I/O and string building, so `InitApp` does not model its `checkWelcomeStatus` call.
- Opening the database and creating its tables (`src/db/client.ts`) is not part of this model. The tables are modelled directly, with the cascade declared in the schema.
- Drizzle query builders, `async`/`await` ordering and overlapping taps are not modelled. Each store operation is one sequential, atomic update, and storage errors are not modelled.
- Date arithmetic and time zones (`new Date`, `setDate`, `toISOString`) are not modelled. The caller passes today and the start date as day ordinals, so the date format and the UTC-versus-local difference are not captured.
- The `setInterval`/`clearInterval` scheduling is not modelled. The timer state changes only when `Tick` is called, and the one-second period is not captured.
- Custom-todo and subtask operations beyond the schema and the cascade, and `getDayDetails`, are not defined in the store source. `customTodos` is not part of this model.
- Rendering, navigation, notifications, camera capture, the confetti animation and the `Alert` dialog of the ad service are not modelled. Pressing "Close Ad" is the call `CloseAd(closedAt)`, and the promise of `showInterstitial` is split into the request (`ShowInterstitial`) and that close.
- The text columns `days.status` and `tasks.type` are checked only by the TypeScript types. The tables declare no CHECK constraint, so `Schema.ParseStatus` and `Schema.ParseType` describe how the texts map to the enumerations, not a validation the database performs.
- Schema.InsertDay: `days.status` is nullable in the schema, but every insert here supplies a status or takes the default, so the model's status is never null.
- The foreign key from tasks to days is kept as an invariant of the store. SQLite enforces it only when foreign keys are switched on, and the model does not cover that switch. The same holds for the ON DELETE CASCADE that `Store.Database.DeleteTodo` performs: the database never switches foreign keys on, so there the cascade is what the schema declares, not what SQLite would do by default.
- Clock.FormatTimeParts: `formatTime` is modelled on non-negative whole seconds only. The timer never holds a negative or fractional value, and the output for such values is not captured.
- Ads.CappedAfterClose: needs a nonzero close time. The service uses 0 to mean "never shown", so an ad closed at time 0 would not cap the next request.
