# Anti-doomscroll timer: a verified model of its timer and task logic

The widget is a single browser script (`app.js`) that runs a focus/break
countdown, counts completed focus intervals ("pomodoros") and logged
distractions per calendar day, keeps a per-day task list, and shows a short
nudge when a distraction is logged. This project models the parts of that
script that are logic rather than page wiring, and proves what they do.

- `Inputs.dfy` (module `Inputs`): the `Math.max(lo, Math.min(hi, …))` clamps,
  the `field || default` fallbacks of the minute fields (an empty field is
  `None`), and `String.prototype.trim`.
- `Format.dfy` (module `Format`): `pad2`, `formatTime` ("MM:SS") and the
  `YYYY-MM-DD` day key of `todayKey` (from a given date), each with a parser
  and a round-trip lemma; the storage key per day.
- `Nudge.dfy` (module `Nudge`): the first-line / 120-code-point cut of the
  remote reply and the choice between it and the fixed fallback lines.
- `Tasks.dfy` (module `Tasks`): the task list as a value, `toggleTask` and
  `deleteTask` as list functions, the planned/done sums of `calcTaskMins`,
  and the lemmas about them.
- `Day.dfy` (module `Day`): class `DayState`, the day record
  `{pomodoros, distractions, tasks}` with the in-place task handlers.
- `TimerEngine.dfy` (module `TimerEngine`): the countdown state as a value
  (`Clock`) with one step function per action, lemmas over many ticks and
  over any sequence of actions, and class `Timer`, whose fields are the
  script's timer variables and whose methods are proved to perform exactly
  those steps. The tick callback is the method `Tick`, called by whoever
  drives the clock.

A focus interval of `focusSeconds` seconds flips on tick `focusSeconds + 1`:
the tick that brings `remaining` to 0 (app.js:148-151) is not the tick that
flips the phase (app.js:152-163) (`FocusCompletes`, `DefaultSessionScenario`).
"0" typed into a minute field becomes 1 (app.js:182-183, app.js:377), while a
task's 0 minutes become 25 when the task sets the focus duration
(`Number(m) || 25`, app.js:293).

## Model

| member | source | states |
|---|---|---|
| Inputs.Clamp | app.js:182-183 | the result lies in [lo,hi], equals x inside the range and the nearer bound outside |
| Inputs.FocusMinutes | app.js:182 | focus minutes are in [1,120]; an empty field gives 25; in-range values are kept, others go to the nearer bound |
| Inputs.BreakMinutes | app.js:183 | break minutes are in [1,60]; an empty field gives 5; in-range values are kept, others go to the nearer bound |
| Inputs.TaskMinutes | app.js:377 | task minutes are in [1,240]; an empty field gives 25; "0" and negatives give 1 |
| Inputs.MinutesFromTask | app.js:293 | the focus minutes a task selects are in [1,120]; 0 gives 25 |
| Inputs.OrDefault | app.js:182-183 | an empty field yields the default, a filled one its value (the empty-field fallback of app.js:182, 183 and 377) |
| Inputs.IsSpace | app.js:376 | the code points `trim` removes: ECMAScript's WhiteSpace and LineTerminator set (specified through `Inputs.TrimEmptyIff`) |
| Inputs.TrimStart | app.js:376 | the result is the suffix of the input left after an all-white-space prefix, and does not start with white space |
| Inputs.TrimEnd | app.js:376 | the result is the prefix of the input left before an all-white-space suffix, and does not end with white space |
| Inputs.Trim | app.js:376 | the result is the input with an all-white-space prefix and suffix removed, and neither starts nor ends with white space |
| Inputs.TrimEmptyIff | app.js:376-379 | a name trims to empty exactly when it is all white space |
| Inputs.TrimIdempotent | app.js:376 | trimming a trimmed string changes nothing |
| Format.DecimalString | app.js:43 | `String(n)` is a non-empty digit string, one digit exactly below 10, with no leading zero |
| Format.DecimalStringValue | app.js:43 | the digits of `String(n)` denote n |
| Format.Pad2 | app.js:83 | `pad2` gives at least two digits, exactly two below 100: "0" before the single digit below 10, `String(n)` unchanged from 10 on |
| Format.Pad2Value | app.js:83 | the padded digits still denote n |
| Format.FormatTime | app.js:84-88 | the display ends in ":SS" and has five characters below 100 minutes |
| Format.FormatTimeRoundTrip | app.js:84-88 | reading the display back gives the second count shown |
| Format.FormatTimeInjective | app.js:84-88 | different second counts are displayed differently |
| Format.DayKey | app.js:38-44 | the key has the shape Y…Y-MM-DD |
| Format.DayKeyRoundTrip | app.js:38-44 | reading a day key back gives the year, month and day it was made from |
| Format.DayKeyInjective | app.js:38-44 | different days get different keys |
| Format.FourDigitYearKey | app.js:38-44 | a four-digit year gives a ten-character key |
| Format.StorageKey | app.js:62-64 | the storage key is the "antiDoomscroll:" prefix followed by the day key |
| Format.StorageKeyInjective | app.js:62-64 | each day's record is stored under its own key |
| Nudge.FirstLine | app.js:251 | the first line is the longest prefix without a line feed |
| Nudge.Slice | app.js:251 | `slice(0,n)` is the prefix of length min(n, length), counted in code points |
| Nudge.NudgeLine | app.js:247-251 | the nudge is a prefix of the reply, free of line feeds, at most 120 code points, and cut only at 120 or at a line feed |
| Nudge.NudgeLineNonEmpty | app.js:247-251 | a reply starting with a non-line-feed gives a non-empty nudge |
| Nudge.Hint | app.js:254-265 | the hint is never empty; it is a fallback line or the cut reply; no reply gives the picked fallback line |
| Nudge.NonBlankReplyIsShown | app.js:247-264 | a reply with any non-space character is shown, cut |
| Nudge.BlankReplyFallsBack | app.js:247-264 | a blank reply shows the picked fallback line |
| Tasks.IndexOf | app.js:398 | the index found is the first task with the id, or the length when none has it |
| Tasks.Without | app.js:406 | no kept task has the id, every kept task was in the list, and the list does not grow |
| Tasks.AppendWellFormed | app.js:386 | a valid task under an unused id keeps ids unique and tasks valid |
| Tasks.Toggled | app.js:396-400 | toggling keeps the length and every id, name and minutes; which `done` flips is stated by `Tasks.ToggledAt` |
| Tasks.PlannedMinutes | app.js:286 | the left fold of `reduce` over all tasks' minutes; specified by `Tasks.MinutesBounds`, `Tasks.PlannedAppend`, `Tasks.AppendMinutes`, `Tasks.ToggledMinutes` and `Tasks.DeleteMinutes` |
| Tasks.DoneMinutes | app.js:287 | the same fold over done tasks only; specified by `Tasks.DoneWithinPlanned`, `Tasks.MinutesBounds` and the same lemmas |
| Tasks.MinutesBounds | app.js:284-287 | n tasks of 1 to 240 minutes plan between n and 240 n minutes; with no task done, done minutes are 0 |
| Tasks.ToggledAt | app.js:396-400 | toggling flips `done` of the first task with the id and changes nothing else; no such task, no change |
| Tasks.ToggleAbsent | app.js:398-399 | toggling an absent id leaves the list unchanged |
| Tasks.ToggleTwice | app.js:396-400 | toggling the same id twice restores the list |
| Tasks.ToggledWellFormed | app.js:396-400 | toggling keeps the list well formed |
| Tasks.WithoutIsSubsequence | app.js:406 | deleting keeps the remaining tasks in their original order |
| Tasks.WithoutCounts | app.js:406 | deleting drops every task with the id and keeps every other task as often as it occurred |
| Tasks.DeleteAbsent | app.js:406 | deleting an absent id leaves the list unchanged |
| Tasks.DeleteUnique | app.js:406 | with unique ids, deleting removes exactly the task at the id's position |
| Tasks.WithoutWellFormed | app.js:406 | deleting keeps the list well formed |
| Tasks.PlannedAppend | app.js:286-287 | both sums split over concatenation |
| Tasks.DoneWithinPlanned | app.js:284-287 | with non-negative minutes, 0 <= done <= planned |
| Tasks.AppendMinutes | app.js:284-287 | adding a task adds its minutes to planned, and to done only when it is done |
| Tasks.ToggledMinutes | app.js:284-287 | toggling keeps planned and moves the task's minutes into or out of done |
| Tasks.DeleteMinutes | app.js:284-287 | deleting a unique id subtracts exactly that task's minutes from each sum |
| Tasks.WriteReportScenario | app.js:375-400 | adding ("Write report", 50) gives planned 50 and done 0; toggling it gives done 50 |
| Day.DayState.constructor | app.js:51 | a day without a stored record starts with zero counters and no tasks |
| Day.DayState.AddTask | app.js:375-387 | a blank name changes nothing; otherwise exactly one undone task with the trimmed name, clamped minutes and the fresh id is appended; well-formedness is kept |
| Day.DayState.ToggleTask | app.js:396-403 | the list becomes `Toggled` of the old list; well-formedness is kept |
| Day.DayState.DeleteTask | app.js:405-409 | the list becomes `Without` of the old list; well-formedness is kept |
| TimerEngine.Initial | app.js:70-76 | the page-load clock is idle, in focus, with a full countdown of the initial focus minutes times 60 |
| TimerEngine.TickStep | app.js:148-166 | one tick keeps the running flag, settings and distractions; the phase flips exactly when the countdown is at 0; the countdown then loads the new phase's duration, otherwise drops by one; a pomodoro is counted exactly when focus expires; the cue is the ten-second warning, focus-done or break-done in exactly its case |
| TimerEngine.StartStep | app.js:142-145 | start leaves the timer running, is a no-op when already running, and changes nothing else |
| TimerEngine.PauseStep | app.js:171 | pause leaves the timer stopped, is a no-op when idle, and changes nothing else |
| TimerEngine.ResetStep | app.js:172-178 | reset leaves the timer idle in focus with the current focus duration, settings and counters kept |
| TimerEngine.ApplySettingsStep | app.js:181-188 | focus becomes 60 × FocusMinutes(field) and break 60 × BreakMinutes(field): the field values clamped to [1,120] and [1,60] minutes, 25 and 5 for empty fields; nothing else changes |
| TimerEngine.FocusFromTaskStep | app.js:292-303 | focus becomes 60 × MinutesFromTask(minutes): the task's minutes clamped to [1,120], 25 for 0; idle: focus phase with the full new countdown; running: phase and countdown kept; counters and break kept |
| TimerEngine.DistractionStep | app.js:268-271 | distractions rise by one exactly when running in focus; nothing else changes |
| TimerEngine.CountDown | app.js:148-151 | k ticks with at least k seconds left only lower `remaining` by k |
| TimerEngine.FocusCompletes | app.js:148-166 | a focus interval with r seconds left shows 0 after r ticks and flips on tick r+1, with one more pomodoro and the break duration loaded |
| TimerEngine.BreakCompletes | app.js:148-166 | a break with r seconds left flips to focus on tick r+1 with the focus duration loaded and no counter change |
| TimerEngine.FullCycle | app.js:148-166 | focus plus break take focusSeconds + breakSeconds + 2 ticks, return to the same state and earn one pomodoro |
| TimerEngine.RunKeeps | app.js:147-167 | ticking never changes settings, the running flag or distractions, and adds at most one pomodoro per tick |
| TimerEngine.DefaultSessionScenario | app.js:142-166 | with 25/5 minutes, 1500 ticks after start show 00:00 in focus and tick 1501 gives one pomodoro and a 300-second break |
| TimerEngine.CountersNeverDecrease | app.js:148-271 | no sequence of actions lowers the pomodoro or distraction count |
| TimerEngine.BoundedPreserved | app.js:136-308 | once durations are in range and the countdown is within 120 minutes, every action keeps it so |
| TimerEngine.ApplySettingsBounds | app.js:181-188 | applying settings puts both durations in range |
| TimerEngine.DistractionsNeedRunningFocus | app.js:268-271 | from an idle timer, with no start, no action changes the distraction count |
| TimerEngine.Timer.constructor | app.js:70-76 | the timer starts idle in focus with the full initial focus countdown |
| TimerEngine.Timer.Start | app.js:142-145 | start sets running and is a no-op when already running |
| TimerEngine.Timer.Stop | app.js:136-141 | stop clears the running flag only |
| TimerEngine.Timer.Pause | app.js:171 | pause stops a running timer, keeps `remaining` and the phase, and does nothing when idle |
| TimerEngine.Timer.Reset | app.js:172-178 | reset ends idle, in focus, with `remaining` equal to the current focus setting |
| TimerEngine.Timer.Tick | app.js:148-166 | a positive countdown drops by exactly one with nothing else changed; at 0 the phase flips, the new phase's duration is loaded and a pomodoro is counted only when focus ends; the ten-second cue plays exactly when focus reaches 10 |
| TimerEngine.Timer.ApplySettings | app.js:181-188 | durations become the clamped minutes times 60; countdown, phase and running flag are unchanged |
| TimerEngine.Timer.SetFocusMinutesFromTask | app.js:292-303 | focus becomes 60 times the task's clamped minutes (25 for 0); when idle the timer switches to focus with the new full countdown, when running countdown and phase are kept |
| TimerEngine.Timer.LogDistraction | app.js:268-272 | exactly one distraction is counted when running in focus, none otherwise; pomodoros are untouched |

## Left out

- Rendering (`renderTime`, `renderStats`, `setModeUI`, `renderTasks`) and all hint texts other than the nudge: page output, not logic.
- Audio: `beep` and the sound toggle are not modelled; `Timer.Tick` returns which cue it would play.
- Scheduling with `setInterval`/`clearInterval`: `Tick` is a method its caller invokes once per second while the timer runs.
- Persistence: `loadState`/`saveState` and the key storage functions use browser storage and JSON; saves are not modelled, and a fresh day's record is the `DayState` constructor.
- The remote request (`fetch`, `async`/`await`, `try`/`catch`): `Nudge.Hint` takes the reply text, or `None` for any failure, as a parameter.
- Randomness and clocks: the fallback line index is a parameter of `Nudge.Hint`; the task id from `uid()` is a parameter of `AddTask`, required to be unused; the date of `todayKey` is a `LocalDate` parameter, so a session running past midnight is not captured.
- Nudge.Slice: lengths are counted in code points, not in the UTF-16 code units JavaScript's `slice` counts, so text with characters outside the Basic Multilingual Plane is cut later than the source cuts it, and the source's possible lone high surrogate at the cut is not represented.
- Nudge.NudgeLine: its 120-character bound is 120 code points, not 120 UTF-16 code units, for the same reason.
- Writing back into the form fields is not modelled: the clamped minutes (app.js:184-185, app.js:294) and `addTask`'s reset of the name field to "" and the minutes field to "25" (app.js:389-390). `ApplySettings` and `AddTask` take the field contents as parameters, so a later call sees whatever the caller passes.
- Non-integer inputs: `NaN` and fractional results of `Number(…)` are not modelled; minute fields are `Option<int>` (`None` for an empty field) and the form's initial minutes (app.js:70-71) are non-negative integers.
- Negative years from `getFullYear()` are not modelled (years are `nat`).
- The space-bar handler (app.js:416-421) only calls start or stop.
- `state.tasks || []` fallbacks: the model's task list always exists.
- Task objects are values: `toggleTask` mutates the object found in the list in place. The click handlers built by `renderTasks` (app.js:333, app.js:339-342) also hold that object, but they only read its `id` and `minutes`, which toggling never changes, and `renderTasks` rebuilds them after every change; so replacing the list element captures what the source does.
