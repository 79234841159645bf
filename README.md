# Wellness app core, modelled in Dafny

This models the logic behind the screens of a small React Native wellness app:

- **Home** (`app/index.tsx`): today's task counts and completion percentage, the progress bar's clamp, a preview of at most three of today's tasks with a "+N more..." line, the editable welcome name, and the load of saved tasks and habits.
- **Agenda** (`app/agenda.tsx`): tasks are added from a form, ticked off and deleted, and each task has a priority colour.
- **Journal** (`app/journal.tsx`): entries are added from a form and deleted.
- **Habit Tracker** (`app/habitTracker.tsx`): habits are added at the front of the list and deleted once the user confirms.
- **Weather widget** (`app/components/weatherBox.tsx`): the city lookup with its fallback, the caption for a weather code, and the advice for a temperature.

Each screen is a class over one shared `Storage.Store`, which models the device's key-value store. A store maps a key to the whole list saved under it.

Every change a screen makes to its list is followed by a write of the new list under its key:
- Agenda and Journal do this through a save effect that runs whenever the list changes.
- Habit Tracker does it directly.

Each of these methods ensures the screen is `Synced()`, meaning the stored list equals the list on screen. `Reopen` and `Refocus` then show that a new screen opened over that store loads exactly that list. This is the load/save round trip.

Pure parts are functions:
- `Text.Trim` models JavaScript's `trim`.
- `ListOps.Filter` models `Array.prototype.filter`.
- The task toggle, the percentage and the captions are functions too.

The lemmas about these functions prove what the screens rely on:
- deleting keeps the survivors in order;
- toggling twice undoes itself;
- the percentage of today's tasks lies in 0..100 and is monotone;
- the preview and "+N more" account for every task of the day;
- the temperature advice never gets colder as the temperature rises.

Inputs from outside the app are parameters:
- the clock (the new record's `id` and `today`);
- the alert's answer (`confirmed`);
- the fetched weather code and temperature, with `None` for the `null` they hold before a fetch succeeds.

Modules: `Optional`, `Text`, `ListOps`, `Records`, `Storage`, `Agenda`, `Journal`, `HabitTracker`, `Home`, `Weather`.

## Model

| member | source | states |
|---|---|---|
| Text.TrimStart | app/index.tsx:188-189 | the result is a suffix of the input and starts with a non-whitespace character (or is empty) |
| Text.TrimStartDropsBlank | app/index.tsx:188-189 | the prefix cut off the front is all whitespace |
| Text.TrimEnd | app/index.tsx:188-189 | the result is a prefix of the input and ends with a non-whitespace character (or is empty) |
| Text.TrimEndDropsBlank | app/index.tsx:188-189 | the suffix cut off the back is all whitespace |
| Text.Trim | app/agenda.tsx:63 | `trim` is never longer than its input, and neither end of a non-empty result is whitespace |
| Text.TrimEmptyIffBlank | app/agenda.tsx:63 | `s.trim()` is empty (falsy) exactly when `s` is all whitespace, in both directions |
| Text.TrimIsInfix | app/journal.tsx:82-83 | the trimmed text is the slice of the input that starts where the leading whitespace ends; the middle is kept unchanged |
| Text.TrimCutsBlankEnds | app/journal.tsx:82-83 | what `trim` removes from both ends is whitespace |
| Text.TrimKeepsTrimmed | app/index.tsx:182-189 | a string with no whitespace at either end is its own trim |
| Text.TrimIdempotent | app/index.tsx:182-189 | trimming an already trimmed name changes nothing |
| ListOps.Filter | app/agenda.tsx:92 | `filter` keeps exactly the elements satisfying the test, drawn from the input, and is never longer than the input |
| ListOps.FilterAppend | app/agenda.tsx:92 | filtering distributes over concatenation, so survivors keep their relative order |
| ListOps.FilterKeepsAll | app/agenda.tsx:92 | when every element passes, the list comes back unchanged |
| ListOps.FilterIdempotent | app/journal.tsx:97 | filtering twice by the same test is filtering once |
| ListOps.FilterStronger | app/index.tsx:135-139 | a test that implies another keeps no more elements than it |
| Storage.Store.GetItem | app/agenda.tsx:45-46 | `getItem` returns the saved value for a present key and nothing (`null`) for an absent key |
| Storage.Store.SetItem | app/agenda.tsx:56 | `setItem` overwrites one key, leaves every other key unchanged, and keeps each screen's key holding its own kind of list |
| Agenda.NewTask | app/agenda.tsx:64-71 | a new task is not completed; its title, description and priority are taken from the form unchanged; its date is the form's date, or today when the field is empty |
| Agenda.ToggleCompletion | app/agenda.tsx:83-89 | same length; only the `completed` flag can change, and it flips exactly on the tasks with the given id |
| Agenda.ToggleTwice | app/agenda.tsx:83-89 | toggling the same id twice restores the list |
| Agenda.ToggleAbsent | app/agenda.tsx:83-89 | toggling an id no task has leaves the list unchanged |
| Agenda.WithoutTask | app/agenda.tsx:91-93 | after deletion no task has the id, every survivor was in the list, and every task with another id survives |
| Agenda.DeleteTaskLaws | app/agenda.tsx:91-93 | deletion distributes over concatenation (order kept), deleting an absent id changes nothing, and deleting twice is deleting once |
| Agenda.PriorityColor | app/agenda.tsx:95-106 | "high" and only "high" gets the high colour, "low" and only "low" the low colour, and everything else the medium colour |
| Agenda.PriorityColorsDistinct | app/agenda.tsx:95-106 | the three priorities get three different colours |
| Agenda.AgendaScreen.constructor | app/agenda.tsx:24-31 | the screen opens with no tasks, the modal closed, and an empty form with medium priority |
| Agenda.AgendaScreen.LoadTasks | app/agenda.tsx:43-52 | a saved list replaces the tasks; an absent key leaves them unchanged |
| Agenda.AgendaScreen.SaveTasks | app/agenda.tsx:54-60 | the whole current list overwrites `@agenda_tasks` and nothing else changes |
| Agenda.AgendaScreen.OpenModal | app/agenda.tsx:114 | the "+ Add Task" button opens the modal |
| Agenda.AgendaScreen.CloseModal | app/agenda.tsx:189 | cancel and the close request close the modal |
| Agenda.AgendaScreen.EditForm | app/agenda.tsx:198-246 | typing or picking a priority replaces the form |
| Agenda.AgendaScreen.AddTask | app/agenda.tsx:62-81 | a title that is blank after trimming changes nothing, including storage; otherwise exactly one new task is appended, the form resets, the modal closes, and the new list is saved |
| Agenda.AgendaScreen.ToggleTaskCompletion | app/agenda.tsx:83-89 | the list becomes the toggled list and is saved |
| Agenda.AgendaScreen.DeleteTask | app/agenda.tsx:91-93 | the list becomes the filtered list and is saved |
| Agenda.Reopen | app/agenda.tsx:43-60 | a screen opened over a store its predecessor saved shows exactly the predecessor's list |
| Journal.Accepts | app/journal.tsx:79 | the form is accepted exactly when its title or its content is not all whitespace |
| Journal.NewEntry | app/journal.tsx:80-85 | an accepted entry has its title and content trimmed, one of them non-empty, and the form's date or today |
| Journal.WithoutEntry | app/journal.tsx:96-98 | after deletion no entry has the id, survivors come from the list, and every entry with another id survives |
| Journal.DeleteEntryLaws | app/journal.tsx:96-98 | deletion keeps order across concatenation, and deleting an absent id changes nothing |
| Journal.JournalScreen.constructor | app/journal.tsx:23-29 | the screen opens with no entries, the modal closed, and a form dated today |
| Journal.JournalScreen.LoadEntries | app/journal.tsx:59-68 | a saved list replaces the entries; an absent key leaves them unchanged |
| Journal.JournalScreen.SaveEntries | app/journal.tsx:70-76 | the whole list overwrites `@journal_entries` |
| Journal.JournalScreen.OpenModal | app/journal.tsx:106 | the "+ Add Entry" button opens the modal |
| Journal.JournalScreen.CloseModal | app/journal.tsx:152 | cancel and the close request close the modal |
| Journal.JournalScreen.EditForm | app/journal.tsx:162-186 | typing into a field replaces the form |
| Journal.JournalScreen.AddEntry | app/journal.tsx:78-94 | a form whose title and content are both blank changes nothing; otherwise one entry is appended, the form resets to today, the modal closes, and the list is saved |
| Journal.JournalScreen.DeleteEntry | app/journal.tsx:96-98 | the list becomes the filtered list and is saved |
| Journal.Reopen | app/journal.tsx:59-76 | a screen reopened over its own saved list shows exactly that list |
| HabitTracker.WithoutHabit | app/habitTracker.tsx:109 | after deletion no habit has the id, survivors come from the list, and every habit with another id survives |
| HabitTracker.DeleteHabitLaws | app/habitTracker.tsx:86-117 | deletion keeps order across concatenation; deleting an absent id changes nothing; adding a habit under a fresh id and then deleting that id restores the list |
| HabitTracker.HabitScreen.constructor | app/habitTracker.tsx:30-31 | the screen opens with an empty field and no habits |
| HabitTracker.HabitScreen.LoadHabits | app/habitTracker.tsx:38-52 | on focus, a saved list replaces the habits; without one they stay as they were |
| HabitTracker.HabitScreen.SaveHabits | app/habitTracker.tsx:57-63 | the given list, not the screen's, overwrites `@habits` |
| HabitTracker.HabitScreen.SetHabit | app/habitTracker.tsx:189 | typing replaces the field |
| HabitTracker.HabitScreen.AddHabit | app/habitTracker.tsx:86-96 | blank input changes nothing; otherwise the trimmed habit goes first, that same list is saved, and the field clears |
| HabitTracker.HabitScreen.DeleteHabit | app/habitTracker.tsx:101-117 | a confirmed delete filters the habits and saves exactly that list; a cancelled one changes nothing |
| HabitTracker.Refocus | app/habitTracker.tsx:38-63 | refocusing over the saved list shows exactly that list |
| Home.TodayTasks | app/index.tsx:138 | exactly the tasks dated today, each drawn from the list |
| Home.DoneToday | app/index.tsx:136-137 | exactly the tasks dated today that are completed, each drawn from the list |
| Home.TodaysTasks | app/index.tsx:135-139 | done today ≤ total today ≤ number of tasks |
| Home.TodaysTasksAppend | app/index.tsx:135-139 | appending a task adds one to the total exactly when it is dated today, and one to the done count exactly when it is also completed |
| Home.AddedTaskCountsForToday | app/index.tsx:135-139 | a task added on the Agenda screen with an empty date raises today's total by one and leaves the done count unchanged |
| Home.ToggleKeepsTodaysTotal | app/index.tsx:135-139 | toggling tasks never changes today's total |
| Home.CompletionPercentage | app/index.tsx:141-144 | 0 when there are no tasks today; otherwise the integer nearest to 100·completed/total, with halves rounded up; within 0..100 whenever completed ≤ total, which `TodaysTasks` guarantees |
| Home.PercentageExamples | app/index.tsx:141-144 | 0 of 0 gives 0 (no division by zero), and 3 of 7 gives 43 |
| Home.PercentageAllOrNone | app/index.tsx:141-144 | all tasks done gives 100; none done gives 0 |
| Home.PercentageMonotone | app/index.tsx:141-144 | more tasks done never lowers the percentage |
| Home.ClampProgress | app/index.tsx:22-24 | the bar value lies in 0..100, equals the input when the input is in range, and is the nearer bound otherwise |
| Home.ClampLeavesPercentage | app/index.tsx:22-24 | the percentage the Home screen passes to the bar is never clamped |
| Home.Preview | app/index.tsx:252-254 | at most three tasks, a prefix of today's tasks, and all of them when there are three or fewer |
| Home.MoreCount | app/index.tsx:281-287 | the "+N more" line appears exactly when the preview leaves tasks out, and N is positive and equals the number left out |
| Home.PreviewAccountsForAll | app/index.tsx:281-287 | the preview plus the "+N more" count equals today's total; the line appears exactly when there are more than three; every previewed task is dated today |
| Home.PreviewOfFive | app/index.tsx:252-287 | five tasks for today preview the first three and read "+2 more..." |
| Home.HomeScreen.constructor | app/index.tsx:65-70 | the screen starts as "User", not editing, with empty lists and loading |
| Home.HomeScreen.LoadAllData | app/index.tsx:89-108 | saved tasks replace the tasks, and an absent key keeps them; saved habits replace the habits, and an absent key empties them; loading ends |
| Home.HomeScreen.EditName | app/index.tsx:182-185 | the field starts from the current name and editing begins |
| Home.HomeScreen.SetTempName | app/index.tsx:341 | typing replaces the field |
| Home.HomeScreen.SaveName | app/index.tsx:187-192 | a non-blank entry becomes the name, trimmed; a blank one keeps the old name; editing ends; the name is never blank or padded; saving the name the editor started from leaves it unchanged |
| Home.HomeScreen.CancelEdit | app/index.tsx:194-197 | editing ends, the field clears, and the name is unchanged |
| Weather.FindCity | app/components/weatherBox.tsx:30 | `find` returns nothing exactly when no city has the name, and otherwise the first city with that name |
| Weather.SelectedCity | app/components/weatherBox.tsx:29-31 | the city is always one of the list: the named one when it exists, otherwise the first (Toronto) |
| Weather.SelectedCityStart | app/components/weatherBox.tsx:22 | the picker's initial "Toronto" resolves to Toronto's coordinates |
| Weather.SelectedCityFallback | app/components/weatherBox.tsx:29-31 | the empty name, which no city has, falls back to Toronto |
| Weather.WeatherMessage | app/components/weatherBox.tsx:50-59 | as written: the caption is empty exactly for no reading and for code 0 |
| Weather.WeatherMessageByRange | app/components/weatherBox.tsx:53-58 | for every non-zero code, each caption holds exactly on its range (1-2, 3, 51-67, 71-77, ≥80, and the rest) |
| Weather.ClearAndSunnyUnreachable | app/components/weatherBox.tsx:51-52 | "Clear and sunny" is never produced |
| Weather.WeatherMessageNullChecked | app/components/weatherBox.tsx:50-59 | with a null-only test, code 0 reads "Clear and sunny", every other reading keeps its caption, and only a missing reading is empty |
| Weather.TemperatureAdvice | app/components/weatherBox.tsx:61-69 | the advice is empty exactly when there is no reading; otherwise each advice is given exactly on its half-open band: below -10, [-10, 0), [0, 10), [10, 20), [20, 30), and 30 or more |
| Weather.AdviceMonotone | app/components/weatherBox.tsx:61-69 | every reading gets one of the six advices, and a warmer reading never gets colder advice |
| Weather.AdviceAtThresholds | app/components/weatherBox.tsx:63-68 | because the comparisons are strict, each threshold (-10, 0, 10, 20, 30) gets the warmer band's advice |

## Left out

- Rendering, styles, animations, the navigation bar and the loading spinners are not modelled; only the state they display is.
- JSON encoding is not modelled. A stored value is the list itself, and the store is assumed well typed: each screen's key holds its own kind of list.
- Storage errors are not modelled. The `try`/`catch` blocks only log, and the model has no failing store.
- The save effects of Agenda (app/agenda.tsx:39-41) and Journal (app/journal.tsx:55-57) are folded into each method that changes the list. Their first run on mount, which can overwrite the stored list with `[]` before the load finishes, is not modelled. It is an asynchronous ordering, and `Reopen` assumes it does not happen.
- The motivational quotes are not modelled: the random pick on Home and the quote fetches on Journal and Habit Tracker. The weather fetch, its URL and its error text are not modelled either. These are network and randomness, and the fetched weather code and temperature enter as parameters.
- `Date.now()` and `new Date()` are not modelled. The new record's `id` and `today` are parameters.
- `Alert.alert` is replaced by the user's answer, passed as the `confirmed` parameter.
- Home.HomeScreen.LoadAllData: the Home screen reloads on focus as well as on mount; the model has one load operation, and the caller decides when to run it.
- Home.CompletionPercentage: this is exact rational rounding (halves up), not floating point `Math.round(c / t * 100)`. At an exact half with a large total (29 of 200), the floating-point product can land just below the half and round down.
- Home.ClampProgress: the bar's input is an integer, since the screen only ever passes a rounded percentage.
- The progress text ("3 of 7 tasks complete (43%)") and the "No tasks for today" label are display formatting and are not modelled; the numbers in them are.
- Text.Trim: whitespace is the ASCII spaces and line terminators, U+00A0, U+FEFF, U+2028 and U+2029. The other Unicode space separators that `trim` also removes are not included.
- HabitTracker.HabitScreen.LoadHabits: the truthiness test `if (json)` is read as "the key is present". A stored value is always the JSON text of an array, never the empty string.
- Weather.WeatherMessage: the code is an integer or missing. `NaN` and fractional codes are not modelled.
- Weather.SelectedCityFallback: the lemma checks the fallback for one concrete name, the empty one. The fallback for every name that no city has is stated by `Weather.SelectedCity`'s third ensures.
- Weather.TemperatureAdvice: the temperature is a real number or missing. `NaN` is not modelled.
- Task priority is a three-value datatype, because the form only offers those three. `Agenda.PriorityColor` still takes any string.

## Findings

| source | as written | input that shows it | evidently intended | confidence | as-written member | corrected member |
|---|---|---|---|---|---|---|
| app/components/weatherBox.tsx:51-52 | `if (!weatherCode) return ""` runs before `weatherCode === 0`, and 0 is falsy | weather code 0 (clear sky) shows an empty caption | code 0 reads "Clear and sunny"; only a missing code is empty | not executed | Weather.ClearAndSunnyUnreachable | Weather.WeatherMessageNullChecked |

The app's documented behaviour says code 0 reads "Clear and sunny". The code does not do this, and the model follows the code (`Weather.WeatherMessage`).
