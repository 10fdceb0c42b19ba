# CampusClock schedule core in Dafny

CampusClock keeps a student's weekly timetable and raises class reminders. This project
models its core and proves properties of it:

- **Time text** (`utils.dfy`, module `Utils`):
  - `convertTo24Hour` turns "9:00 AM" into "09:00". Other text with numbers around a ':'
    is kept up to its first space, unpadded. Anything else becomes "".
  - `formatTo12Hour` does the reverse, and `formatDuration` writes "1h 30m".
  - `hasSchedule` asks whether any day has a class.
  - date-fns `parse`/`format` for `h:mm a`, `HH:mm` and `p` are digit and meridiem
    arithmetic on a minute of the day (0 to 1439).
- **The normaliser** (`process.dfy`, with the sort order in `key_order.dfy`), which is
  `processSchedule`. For every day it:
  - keys each entry by its converted start and drops entries whose key is "";
  - sorts by key in a stable `localeCompare` order (`KeyOrder.SortByKeyStable`);
  - skips old free periods and starts that do not read as numbers;
  - puts a free period into every gap of more than 15 minutes;
  - writes both times in 12-hour form;
  - marks each entry that a class follows 0 to 10 minutes after it ends.

  The day loop, the marking loop and the loop over the seven days are methods. Each is
  proved equal to a specification function, and the properties are lemmas about that
  function.
- **The schedule store** (`store.dfy`, module `Store`), the state behind the
  `ScheduleProvider`:
  - loading, with missing days filled in;
  - bulk import (`setFullSchedule`), where a record is kept, skipped, or makes the whole
    import throw;
  - `updateClass`, `deleteClass` and `clearSchedule`.

  The store is a class whose methods update `schedule` and `isLoaded` in place.
- **The alarm check** (`alarm_manager.dfy`, module `Alarms`):
  - The minute tick scans today's classes in a `for` loop with `continue` and `break`.
  - A pre-class reminder is raised 10 to 11 minutes before a start.
  - A consecutive-class reminder is raised near the end of a class that runs into the next.
  - The two AI services are function parameters: each maps the request to its reply or to
    a failure.
  - The active reminder and the toasts shown are fields of a class, set by the scan and
    cleared by dismiss.
- **The edit form** (`edit_class_sheet.dfy`, module `EditSheet`): the `classSchema` rules,
  including the 24-hour pattern `^([01]?[0-9]|2[0-3]):[0-5][0-9]$`, and the
  `{...classInfo, ...values}` merge that `onSubmit` sends.
- **The initial tab** (`schedule_display.dfy`, module `Display`): `getToday` and the
  `initialTab` rule.

`js.dfy` (module `Js`) holds the JavaScript built-ins the code relies on: `parseInt`,
`Number`, `split`, `trim` and `filter`. `types.dfy` (module `Types`) holds the data model
of `src/lib/types.ts`.

Four points where what the code does is easy to misread:

- **Consecutive window.** The code's comment at `src/components/alarm-manager.tsx:68` speaks
  of "2 minutes before end time". The code tests `-2 <= differenceInMinutes(now, end) <= 0`,
  and `differenceInMinutes` truncates toward zero. The window therefore runs from just under
  three minutes before the end to just under one minute after it (`Alarms.ConsecutiveWindow`).
- **No trigger memory.** The code keeps no per-class record of reminders already raised. A
  scan is skipped only while a reminder is showing (`Alarms.AlarmManager.CheckAlarms`). After
  a dismiss, a later tick inside the same window may raise the same reminder again.
- **Consecutive means the next entry.** The code marks an entry consecutive by comparing it
  with the entry right after it in the processed list, not with the next class. A free period
  in between therefore leaves it unmarked (`Process.NormalizeMarks`,
  `Process.NormalizeFreeFlanked`).
- **Numeric fallback.** For text that is not a 12-hour time, `convertTo24Hour` keeps any text
  with a number before and after the ':', unpadded: "9:05" stays "9:05"
  (`Utils.UnpaddedHourKept`). It gives "" only when neither reading applies.

## Model

| member | source | states |
|---|---|---|
| Types.DayFromName | src/lib/types.ts:2 | a name is read as a day only when it is that day's own name |
| Types.DayNameRoundTrip | src/lib/types.ts:2-4 | every day's name reads back as that day |
| Types.EmptySchedule | src/components/providers/ScheduleProvider.tsx:234-238 | the empty schedule has all seven days, each with no entries |
| Utils.HasSchedule | src/lib/utils.ts:12-15 | some day of the schedule has at least one entry; `Display.HasScheduleFindsDay` proves this is exactly when the schedule view's search over the days finds one |
| Utils.ConvertTo24Hour | src/lib/utils.ts:17-29 | `convertTo24Hour` with its three outcomes: a valid 12-hour text becomes padded `HH:mm` (`ConvertTo24HourOfFormat12`, `TwelveHourRoundTrip`), a numeric `h:mm` text comes back as its first word (`ConvertTo24HourKeepsClock`), anything else, and "", gives "" |
| Utils.FormatTo12Hour | src/lib/utils.ts:31-38 | `formatTo12Hour`: "" stays "", a valid `HH:mm` becomes `h:mm AM/PM` (`FormatTo12HourOfFormat24`, `TwentyFourHourRoundTrip`), other text comes back unchanged |
| Utils.FormatDuration | src/lib/utils.ts:40-54 | `formatDuration`: "" for NaN and negative counts, else hours and minutes text; its meaning is proved in `DurationShape` and `FormatDurationEmptyIffInvalid` |
| Utils.Parse24 | src/lib/utils.ts:33-34 | `HH:mm` parsing gives a minute of the day in 0..1439 or fails |
| Utils.Parse12 | src/lib/utils.ts:19-20 | `h:mm a` parsing gives a minute of the day in 0..1439 or fails |
| Utils.Parse24OfFormat24 | src/lib/utils.ts:33-34 | every `HH:mm` text date-fns writes is read back as the same minute |
| Utils.Parse12OfFormat12 | src/lib/utils.ts:19-20 | every 12-hour text date-fns writes is read back as the same minute |
| Utils.ConvertTo24HourOfFormat12 | src/lib/utils.ts:17-22 | a valid 12-hour time converts to its zero-padded 24-hour text |
| Utils.FormatTo12HourOfFormat24 | src/lib/utils.ts:31-36 | a valid 24-hour time formats to its 12-hour text |
| Utils.TwelveHourRoundTrip | src/lib/utils.ts:17-38 | converting back the 12-hour form of any padded "HH:MM" (hour 00..23, minute 00..59) gives the text itself |
| Utils.TwentyFourHourRoundTrip | src/lib/utils.ts:17-38 | formatting the 24-hour form of a 12-hour time that date-fns writes gives that 12-hour text |
| Utils.ConvertTo24HourKeepsClock | src/lib/utils.ts:24-27 | a text that is not 12-hour but is one or two digits, ':' and two digits comes back exactly as written |
| Utils.UnpaddedHourKept | src/lib/utils.ts:24-27 | so a one-digit hour is not padded, and the result differs from the `HH:mm` text of that time |
| Utils.ConvertTo24HourMorning | src/lib/utils.ts:19-21 | "9:00 AM" converts to "09:00" |
| Utils.ConvertTo24HourAfterMidnight | src/lib/utils.ts:19-21 | "12:15 AM" converts to "00:15" |
| Utils.ConvertTo24HourNoon | src/lib/utils.ts:19-21 | "12:30 PM" converts to "12:30" |
| Utils.FormatTo12HourAfternoon | src/lib/utils.ts:33-35 | "14:05" formats to "2:05 PM" |
| Utils.FormatTo12HourMidnight | src/lib/utils.ts:33-35 | "00:30" formats to "12:30 AM" |
| Utils.DurationShape | src/lib/utils.ts:42-53 | the duration text is "Nh Mm", "Nh" or "Mm" depending on which parts are non-zero, and "0m" when both are zero |
| Utils.FormatDurationEmptyIffInvalid | src/lib/utils.ts:41 | the duration text is empty exactly for NaN and negative counts |
| Utils.FormatDurationHourAndMinutes | src/lib/utils.ts:40-53 | 90 minutes is "1h 30m" |
| Utils.FormatDurationWholeHours | src/lib/utils.ts:40-53 | 120 minutes is "2h" |
| Utils.ParseIntOfDuration | src/components/providers/ScheduleProvider.tsx:74 | `parseInt` of the first word of a written duration gives its hours when there are any, otherwise its minutes |
| KeyOrder.KeyLessAsymmetric | src/components/providers/ScheduleProvider.tsx:26 | the key comparison never orders two keys both ways |
| KeyOrder.KeyLessTransitive | src/components/providers/ScheduleProvider.tsx:26 | the key comparison is transitive |
| KeyOrder.KeyLessTotal | src/components/providers/ScheduleProvider.tsx:26 | any two different keys are ordered one way or the other |
| KeyOrder.InsertByKey | src/components/providers/ScheduleProvider.tsx:26 | inserting into a sorted list keeps it sorted and adds exactly that entry |
| KeyOrder.SortByKey | src/components/providers/ScheduleProvider.tsx:26 | the sort's result is sorted by key and is a permutation of its input |
| KeyOrder.SortByKeyStable | src/components/providers/ScheduleProvider.tsx:26 | the sort is stable: for every key, the entries with that key come out in their input order |
| KeyOrder.InsertWithKey | src/components/providers/ScheduleProvider.tsx:26 | an inserted entry goes in front of every entry with the same key |
| KeyOrder.KeyOrderIsTimeOrder | src/components/providers/ScheduleProvider.tsx:24-26 | for padded keys, key order is the order of the times of day, in both directions |
| KeyOrder.KeyLessOfClocks | src/components/providers/ScheduleProvider.tsx:26 | comparing two clock texts character by character is comparing their HHmm numbers |
| KeyOrder.FilterSorted | src/components/providers/ScheduleProvider.tsx:32-34 | dropping entries from a sorted list keeps it sorted |
| Process.WithKeys | src/components/providers/ScheduleProvider.tsx:23-25 | the keyed list holds exactly the day's entries whose converted start is non-empty, each keyed by that start |
| Process.KeyMinutes | src/components/providers/ScheduleProvider.tsx:35-36 | `startTime24.split(':').map(Number)` then `setHours` and `setMinutes`, as minutes past midnight, NaN when either part is not a number; `KeyMinutesOfFormat24` proves it inverts `convertTo24Hour`'s padded keys |
| Process.KeyMinutesOfFormat24 | src/components/providers/ScheduleProvider.tsx:36-37 | the hours and minutes read from a converted 24-hour key are the time it stands for |
| Process.FallbackLength | src/components/providers/ScheduleProvider.tsx:74 | the fallback length is the leading number of the duration when that is a non-zero number, and 50 otherwise |
| Process.FreePeriod | src/components/providers/ScheduleProvider.tsx:46-57 | a free period is free, has its alarm off, is not consecutive, is on its day, is named "Free Period" with no room, and has the id `free-<day>-<HH:mm of its start>` |
| Process.FreePeriodIdsDiffer | src/components/providers/ScheduleProvider.tsx:47 | two free periods of one day that start at different times of day get different ids |
| Process.FreePeriodTimes | src/components/providers/ScheduleProvider.tsx:47-51 | a free period's start and end convert back to the `HH:mm` texts of the gap's two ends |
| Process.Lay | src/components/providers/ScheduleProvider.tsx:31-76 | the day loop over the sorted entries: skip free periods and invalid starts, push a free period for a gap over 15 minutes, push the reformatted class, carry its end; its properties are `LayPushGap`, `LayClasses`, `LayEndsWithClass` and `LayFreeFlanked`, and `Process.LayOut` is the loop itself |
| Process.LayPushGap | src/components/providers/ScheduleProvider.tsx:41-66 | a free period is put before a kept class exactly when a class came before and the gap since its end is more than 15 minutes; it spans that gap and is followed by the class |
| Process.LayClasses | src/components/providers/ScheduleProvider.tsx:32-76 | the classes the day loop pushes, without its free periods, are the kept entries in sorted order, each with 12-hour times |
| Process.LayEndsWithClass | src/components/providers/ScheduleProvider.tsx:41-66 | the day loop never ends its list with a free period |
| Process.LayFreeFlanked | src/components/providers/ScheduleProvider.tsx:41-66 | every free period the day loop puts sits between two classes |
| Process.KeptMember | src/components/providers/ScheduleProvider.tsx:34-39 | an entry is kept exactly when it is not a free period and its start reads as hours and minutes |
| Process.KeptPermutation | src/components/providers/ScheduleProvider.tsx:26-39 | the kept entries of a permutation are a permutation of the kept entries |
| Process.ProcessDay | src/components/providers/ScheduleProvider.tsx:22-108 | the processing of one day gives the normalised day |
| Process.LayOut | src/components/providers/ScheduleProvider.tsx:28-76 | the day loop pushes exactly the laid-out list of the sorted entries |
| Process.ClassEnd | src/components/providers/ScheduleProvider.tsx:68-75 | a class ends at its end time, or at its start plus the fallback length |
| Process.MarkRuns | src/components/providers/ScheduleProvider.tsx:78-105 | the marking loop and its fix-up give the marked list |
| Process.ProcessSchedule | src/components/providers/ScheduleProvider.tsx:21-111 | processing the schedule normalises each of the seven days from its list, or from an empty list when the day is missing |
| Process.NormalizeSchedule | src/components/providers/ScheduleProvider.tsx:21-111 | the processed schedule has all seven days |
| Process.NormalizedDay | src/components/providers/ScheduleProvider.tsx:22-23 | each day of the processed schedule is the normalisation of that day's list, or of [] |
| Process.Adjacent | src/components/providers/ScheduleProvider.tsx:84-97 | an entry is consecutive when neither it nor the next is a free period and the next starts 0 to 10 minutes after its end, both times parsing; `MarkedFlags` and `NormalizeMarks` state this as an iff over the output |
| Process.MarkConsecutive | src/components/providers/ScheduleProvider.tsx:78-105 | marking keeps the list's length; what the marks mean is stated by `Process.MarkedFlags` |
| Process.MarkOnlyFlags | src/components/providers/ScheduleProvider.tsx:78-105 | marking changes nothing in an entry but its consecutive flag |
| Process.MarkIdempotent | src/components/providers/ScheduleProvider.tsx:78-105 | marking a marked list changes nothing |
| Process.Normalize | src/components/providers/ScheduleProvider.tsx:22-105 | one day of `processSchedule`: key, filter, sort, lay out, mark; its properties are `NormalizeClasses`, `NormalizeMarks`, `NormalizeFreeFlanked`, `NormalizedFrom` and `SortedByStart` |
| Process.NormalizeClasses | src/components/providers/ScheduleProvider.tsx:22-76 | leaving out the free periods and the flags, a processed day is the kept entries of the sorted keyed list, which is sorted by key and a permutation of the kept entries of the day |
| Process.NormalizeMarks | src/components/providers/ScheduleProvider.tsx:78-105 | an entry other than the last is consecutive exactly when it and the next entry are classes and the next starts 0 to 10 minutes after it ends; the last entry is a class and not consecutive |
| Process.MarkedFlags | src/components/providers/ScheduleProvider.tsx:79-105 | the same holds for marking any list that does not end with a free period |
| Process.NormalizeFreeFlanked | src/components/providers/ScheduleProvider.tsx:41-66 | in a processed day every free period comes after a class and before a class |
| Process.NormalizedFrom | src/components/providers/ScheduleProvider.tsx:60-66 | every class of a processed day is an input class, not a free period, with 12-hour times and a recomputed flag |
| Process.SortedByStart | src/components/providers/ScheduleProvider.tsx:26 | in a sorted list, entries with padded keys are in order of start time |
| Store.FillDays | src/components/providers/ScheduleProvider.tsx:121-123 | the filled schedule has all seven days; a day present keeps its list and a missing day gets [] |
| Store.FillIn | src/components/providers/ScheduleProvider.tsx:121-123 | the loop over the seven days gives the filled schedule: days present keep their lists, missing days get [] |
| Store.LoadedSchedule | src/components/providers/ScheduleProvider.tsx:117-131 | the loaded schedule always has all seven days |
| Store.FillDaysRedundant | src/components/providers/ScheduleProvider.tsx:121-124 | filling in the missing days does not change what processing gives |
| Store.ElapsedInDay | src/components/providers/ScheduleProvider.tsx:173-174 | the import's duration is end minus start modulo a day, in 0..1439 |
| Store.ElapsedNum | src/components/providers/ScheduleProvider.tsx:202-205 | the update's duration is a number exactly when both times are |
| Store.ImportEnd | src/components/providers/ScheduleProvider.tsx:159-168 | a record has no end exactly when it has neither duration nor end time; its end is an invalid date exactly when it has a duration, no end time and a NaN start or length |
| Store.Admit | src/components/providers/ScheduleProvider.tsx:150-186 | one record of `setFullSchedule`: skipped, admitted as a class, or throwing; its branches are stated by `AdmitSkips`, `AdmitSkipsNaN`, `AdmittedClass`, `AdmittedWithEnd` and `AdmittedWithDuration` |
| Store.AdmitSkips | src/components/providers/ScheduleProvider.tsx:151-168 | a record with an unknown day, an empty start, or neither end time nor duration is skipped |
| Store.AdmitSkipsNaN | src/components/providers/ScheduleProvider.tsx:170-171 | a record whose start or end does not read as hours and minutes is skipped |
| Store.AdmittedClass | src/components/providers/ScheduleProvider.tsx:177-185 | a kept record is filed on its named day with its alarm on, not consecutive, its start, subject and room, its own end time when it had one, and the id day-start-subject-nonce |
| Store.AdmittedWithEnd | src/components/providers/ScheduleProvider.tsx:164-182 | a record with an end time whose times read as minutes is kept, with the end-minus-start duration, a day added when negative |
| Store.AdmittedDuration | src/components/providers/ScheduleProvider.tsx:153-182 | for 12-hour start and end times the stored duration is (end - start) mod 1440 formatted |
| Store.AdmittedWithDuration | src/components/providers/ScheduleProvider.tsx:159-182 | a record with a duration and no end time ends that many minutes after its start; that number becomes its duration and its end is written in 12-hour form |
| Store.AdmittedWithDuration12 | src/components/providers/ScheduleProvider.tsx:153-182 | the same for a start written in 12-hour form |
| Store.ElapsedAfter | src/components/providers/ScheduleProvider.tsx:162-174 | the duration re-read from a start and an end that many minutes later is that number |
| Store.ImportEndOfDuration | src/components/providers/ScheduleProvider.tsx:159-163 | a record with a duration and no end time ends at the `HH:mm` text of start plus length modulo a day |
| Store.Imported | src/components/providers/ScheduleProvider.tsx:146-187 | the schedule `setFullSchedule` builds from the records, or None when one throws; `BuildByDay`, `BuildThrowsIff` and `Store.BuildImport` state what it holds |
| Store.Build | src/components/providers/ScheduleProvider.tsx:146-187 | an import that does not throw gives a schedule with all seven days |
| Store.BuildByDay | src/components/providers/ScheduleProvider.tsx:150-187 | each day of the import holds exactly the classes admitted for that day, in record order |
| Store.BuildThrowsIff | src/components/providers/ScheduleProvider.tsx:150-187 | the import throws exactly when some record throws |
| Store.BuildStaysFailed | src/components/providers/ScheduleProvider.tsx:150-187 | once the import has thrown, the later records do not matter |
| Store.ImportThrows | src/components/providers/ScheduleProvider.tsx:159-163 | a record whose duration gives an invalid date makes the whole import throw |
| Store.BuildImport | src/components/providers/ScheduleProvider.tsx:146-187 | the `forEach` over the records builds the import, or throws |
| Store.WithoutId | src/components/providers/ScheduleProvider.tsx:216 | the filtered list holds exactly the entries with another id |
| Store.Staged | src/components/providers/ScheduleProvider.tsx:212-220 | the staged schedule has all seven days |
| Store.StagedOnce | src/components/providers/ScheduleProvider.tsx:207-220 | after staging, the edited class with its new duration is on its day exactly once; it is the only entry with its id anywhere; every other entry is still on its day |
| Store.UpdatedSchedule | src/components/providers/ScheduleProvider.tsx:192-224 | the updated schedule has all seven days |
| Store.UpdatedDuration | src/components/providers/ScheduleProvider.tsx:202-210 | for 12-hour times the edited class's duration is (end - start) mod 1440 formatted |
| Store.UpdatedIdOnOneDay | src/components/providers/ScheduleProvider.tsx:214-222 | after an accepted update no other day has a class with the edited id |
| Store.DeletedSchedule | src/components/providers/ScheduleProvider.tsx:226-232 | the schedule after a delete has all seven days |
| Store.DeletedFromDay | src/components/providers/ScheduleProvider.tsx:228 | after a delete the named day has no class with the id |
| Store.DeleteLeavesOtherDays | src/components/providers/ScheduleProvider.tsx:229-230 | a delete leaves every other day as its old list processed again |
| Store.ScheduleStore.constructor | src/components/providers/ScheduleProvider.tsx:13-19 | the store starts with the empty schedule and not loaded |
| Store.ScheduleStore.Load | src/components/providers/ScheduleProvider.tsx:113-133 | loading gives the processed, filled-in stored schedule, or the empty one when nothing is stored, and marks the store loaded |
| Store.ScheduleStore.SetFullSchedule | src/components/providers/ScheduleProvider.tsx:145-190 | an import that does not throw replaces the schedule with the processed import; one that throws leaves it unchanged |
| Store.ScheduleStore.UpdateClass | src/components/providers/ScheduleProvider.tsx:192-224 | the schedule becomes the updated schedule, or stays as it was when either time does not convert |
| Store.ScheduleStore.DeleteClass | src/components/providers/ScheduleProvider.tsx:226-232 | the schedule becomes the schedule after the delete |
| Store.ScheduleStore.ClearSchedule | src/components/providers/ScheduleProvider.tsx:234-239 | the schedule becomes seven empty days |
| Alarms.Visit | src/components/alarm-manager.tsx:43-100 | one pass of the `for` body of `checkAlarms`: continue, with or without a toast, or a reminder; `QuietClasses`, `PreClassReminder`, `ConsecutiveReminderOnly` with its converse `ConsecutiveReminderSet`, and `ConsecutiveKind` state its outcomes, and `AlarmServiceOnlyInWindow` and `NoticeServiceOnlyInWindow` say when each service is consulted |
| Alarms.Scan | src/components/alarm-manager.tsx:42-105 | the scan that stops at the first reminder and collects the toasts before it; `FirstReminderWins` and `ToastShown` state this, and `Alarms.ScanToday` is the loop itself |
| Alarms.MinutesBetween | src/components/alarm-manager.tsx:54 | the minute difference is the millisecond difference truncated toward zero |
| Alarms.PreClassWindow | src/components/alarm-manager.tsx:54-55 | the pre-class test holds exactly when the start is at least 10 and less than 11 minutes ahead |
| Alarms.ConsecutiveWindow | src/components/alarm-manager.tsx:76-78 | the consecutive test holds exactly when now is less than 3 minutes before the end or less than 1 minute after it |
| Alarms.NextNonFree | src/components/alarm-manager.tsx:79 | the next class found is the first later entry that is not a free period, or there is none |
| Alarms.QuietClasses | src/components/alarm-manager.tsx:43 | free periods and classes with the alarm off never do anything |
| Alarms.PreClassReminder | src/components/alarm-manager.tsx:43-65 | a pre-class reminder is set exactly when the class is enabled and not free, its start reads as a 24-hour time 10 to 11 minutes ahead, and the service says to set an alarm and names its time; it carries the class and the reason |
| Alarms.AlarmServiceOnlyInWindow | src/components/alarm-manager.tsx:55-61 | outside the pre-class window the alarm service's answer does not matter |
| Alarms.ConsecutiveNoticeOnlyInWindow | src/components/alarm-manager.tsx:69-83 | the consecutive-class service matters only for a consecutive class whose end reads as a time less than three minutes ahead or less than a minute past, with a later non-free entry |
| Alarms.NoticeServiceOnlyInWindow | src/components/alarm-manager.tsx:43-100 | outside that case the notice service, with its soft toast and its error toast, does not change the loop body's outcome |
| Alarms.ConsecutiveReminderOnly | src/components/alarm-manager.tsx:69-95 | a consecutive reminder comes only from an enabled class marked consecutive whose start reads as a time, inside the end window, when a later non-free entry exists; it names that entry, and the service was asked about the two classes and answered full-screen with that message |
| Alarms.ConsecutiveReminderSet | src/components/alarm-manager.tsx:43-95 | the converse: an enabled class marked consecutive, with a start that reads as a time and a pre-class step that does not fire, inside its end window, with a later non-free entry and both 12-hour times readable, sets the consecutive reminder for that entry with the message of a full-screen answer |
| Alarms.FullScreenReminds | src/components/alarm-manager.tsx:93-95 | a full-screen answer sets the consecutive reminder for the next class with the service's message |
| Alarms.NearEndReminds | src/components/alarm-manager.tsx:76-95 | inside the end window, with a later non-free entry and both times readable, a full-screen answer makes the near-end check remind |
| Alarms.PreClassFallsThrough | src/components/alarm-manager.tsx:54-66 | outside the pre-class window, or when the alarm service does not ask for an alarm, the body goes on to the consecutive check |
| Alarms.ConsecutiveKind | src/components/alarm-manager.tsx:93-94 | the consecutive check only ever sets a consecutive reminder |
| Alarms.SoftNotificationContinues | src/components/alarm-manager.tsx:91-92 | a soft notification is shown as a toast and the scan goes on |
| Alarms.FailureContinues | src/components/alarm-manager.tsx:101-104 | a failing service call is reported as a toast and the scan goes on |
| Alarms.FirstReminderWins | src/components/alarm-manager.tsx:42-105 | a scan sets no reminder exactly when every class lets it go on; otherwise it sets the reminder of the first class that stops it |
| Alarms.ToastShown | src/components/alarm-manager.tsx:91-103 | every toast raised before the scan stops is shown |
| Alarms.ReminderFromToday | src/components/alarm-manager.tsx:42-95 | a reminder is for an entry of today's list that is not a free period, and a pre-class one is for a class with its alarm on |
| Alarms.TodayByName | src/components/alarm-manager.tsx:38-40 | today's list is the schedule's list under `['Sunday', ..., 'Saturday'][getDay()]` |
| Alarms.ScanToday | src/components/alarm-manager.tsx:42-105 | the loop returns the reminder and the toasts of the scan |
| Alarms.AlarmManager.constructor | src/components/alarm-manager.tsx:22 | no reminder is active at first |
| Alarms.AlarmManager.CheckAlarms | src/components/alarm-manager.tsx:35-105 | before the first tick, or while a reminder shows, nothing changes; otherwise the reminder becomes the scan's and its toasts are shown |
| Alarms.AlarmManager.Dismiss | src/components/alarm-manager.tsx:117 | dismissing clears the reminder |
| EditSheet.Validate | src/components/edit-class-sheet.tsx:16-22 | the zod schema: accepted with the typed day exactly when every field passes (`ValidateAccepts`), otherwise the failing fields (`ValidateIssues`) |
| EditSheet.Merge | src/components/edit-class-sheet.tsx:56-57 | the merged class keeps id, end time, alarm, consecutive and free flags, and takes the five form fields |
| EditSheet.MergeKeepsHidden | src/components/edit-class-sheet.tsx:57 | the merged class is the edited class with exactly the form's fields replaced |
| EditSheet.ValidateAccepts | src/components/edit-class-sheet.tsx:16-22 | the form is accepted exactly when subject, room and duration are non-empty, the start matches the 24-hour pattern and the day is one of the seven; the accepted values are the typed ones |
| EditSheet.ValidateIssues | src/components/edit-class-sheet.tsx:16-22 | a rejected form names exactly the fields that fail |
| EditSheet.HourValue | src/components/edit-class-sheet.tsx:19 | the pattern's hour is at most 23 |
| EditSheet.MinuteValue | src/components/edit-class-sheet.tsx:19 | the pattern's minutes are at most 59 |
| EditSheet.ValidTimeParses | src/components/edit-class-sheet.tsx:19 | a start the pattern accepts is hour ':' minutes, and `HH:mm` parsing reads that time |
| EditSheet.ValidTimeKept | src/components/edit-class-sheet.tsx:19 | a start the pattern accepts passes `convertTo24Hour` unchanged, so the update does not reject it |
| EditSheet.Format24IsValid | src/components/edit-class-sheet.tsx:19 | every `HH:mm` text date-fns writes passes the pattern |
| EditSheet.PatternExamples | src/components/edit-class-sheet.tsx:19 | "9:05", "09:05" and "23:59" pass; "24:00", "9:5" and "9:60" do not |
| EditSheet.SubmitRejectedOnlyForEnd | src/components/edit-class-sheet.tsx:56-57 | with a valid start, a submit is turned away only when the old end time does not convert |
| EditSheet.DurationFieldOverwritten | src/components/edit-class-sheet.tsx:20 | the duration typed in the form has no effect: the update recomputes it |
| Display.GetToday | src/components/schedule-display.tsx:25-30 | `getToday` names the day `getDay()` gives, Sunday being 0 |
| Display.FirstDayWithClasses | src/components/schedule-display.tsx:46 | the search finds the first day from Monday on with classes, or none when no such day exists |
| Display.GetTodayNames | src/components/schedule-display.tsx:25-30 | index 0 is Sunday through 6 Saturday, and different indexes name different days |
| Display.EveryDayIsToday | src/components/schedule-display.tsx:25-30 | every day is today for some index |
| Display.InitialTab | src/components/schedule-display.tsx:45-46 | `initialTab` opens on a day that has classes or on today |
| Display.HasScheduleFindsDay | src/lib/utils.ts:12-15 | `hasSchedule` is true exactly when `ALL_DAYS.find` of the schedule view finds a day with classes |
| Display.InitialTabChoice | src/components/schedule-display.tsx:45-46 | the tab is today when today has classes; otherwise the first day with classes from Monday on; today when no day has classes |
| Display.InitialTabHasClasses | src/components/schedule-display.tsx:46 | when some day has classes the tab opens on a day with classes |

## Left out

- The AI flows are prompts sent to an external model, so they are not modelled. Each service is a function parameter from request to reply, with a failure standing for a rejected promise. A real service may answer differently on each call.
- The location the alarm service's schema requires is never sent by the code. The request type has no such field.
- `localStorage`, `JSON.parse` and `JSON.stringify` are I/O and are not modelled. `Store.ScheduleStore.Load` takes the parsed schedule, or None when nothing is stored or parsing failed. A stored value that is not a schedule is not modelled: extra keys, a day whose value is not a list, a null entry.
- React is not modelled: the one-minute `setInterval`, `useEffect`, `useState`, `useCallback` and the context. `now` is a parameter of `CheckAlarms`, with `None` before the first tick, and the async scan runs to completion without interleaving.
- Toast and audio rendering are not modelled. A toast is recorded only as an entry in the `shown` list.
- The clock is a weekday index and milliseconds since midnight. Time zones, daylight-saving changes and dates beyond the current day are not modelled. An hour past 23, which a fallback key such as "25:00" can carry, stays a count of minutes past today's midnight. So the roll into the next day that `setHours` makes is kept: gaps and elapsed times are computed on those counts, and `Process.FreePeriod` and `Store.ImportEnd` write the `HH:mm` of such a time modulo a day, as `format` of the rolled-over date does.
- `Number` and `parseInt` are modelled for decimal digits with optional sign, surrounding white space and, for `Number`, the empty string. Hex, exponent and `Infinity` forms are not modelled.
- Process.KeyMinutes: numbers are unbounded integers, so the JavaScript `Date` range is not modelled. `setHours` gives an Invalid Date once the time leaves ±8.64e15 ms, from an hour of about 2.4e9 on. A fallback key such as "9999999999:00" passes `convertTo24Hour` and is such an hour. `processSchedule` then skips the class, because its start is not a valid date, while `Process.Keeps` keeps it at that count of minutes.
- Store.ImportEnd: for the same out-of-range start hour with a duration, `format` of the Invalid Date throws, and the whole import throws. The model gives an end time instead and keeps the record.
- Double precision is not modelled either. `Number` and `parseInt` are exact only up to 2^53, and longer digit strings are rounded. `formatDuration` writes `${h}h` in exponent form from 1e21 hours on. `Utils.FormatDuration` writes every digit with `NatToString`.
- Decimal fractions are not modelled: `Number("9.5")` is NaN in the model, not 9.5. Such text does reach `Number`: `convertTo24Hour`'s fallback lets "9.5:00" through, because `parseInt("9.5")` is 9. `processSchedule` keeps that class at 9:00, because `setHours` truncates, while the model drops it. `updateClass` and the import's end-time branch compute a floating-point duration from it, while the model has NaN there: an empty duration text, or a skipped record.
- The meridiem is modelled as "AM" or "PM" in any case. date-fns also accepts other spellings such as "a.m.", which are not modelled.
- KeyOrder.KeyLess: `localeCompare` is modelled as code-point order with ':' before digits and letters. This agrees with ICU's root collation only on keys made of digits and ':', the keys `KeyOrderIsTimeOrder` is about. The fallback of `convertTo24Hour` returns the typed first word, which can hold other characters. ICU orders "9:00am" before "9:00PM", ignoring case at first, where code points put "9:00PM" first. ICU also sorts white space and '-' before ':', where the model puts ':' lowest. For such keys the model's sort order is not the code's.
- date-fns is taken to be version 3. There, `add` with NaN minutes gives an Invalid Date and `format` throws on it, which is what `Store.ImportEnd` and `Store.ImportThrows` model for a record with a valid start and a non-numeric duration. Under date-fns version 2, `add` treats NaN minutes as 0, so such a record would be kept with its end equal to its start.
- The `Math.random()` part of an imported id is a parameter, `nonce`, so id uniqueness is not modelled.
- A record whose day name is an inherited object property, such as "constructor", makes the code throw. The model skips it as an unknown day.
- Normalising twice gives the same result as normalising once (idempotence). This is not proved; only the marking step is shown idempotent (`Process.MarkIdempotent`).
- Overlapping classes are kept as the code keeps them. A negative gap adds no free period, and nothing rejects the overlap.
- The import's fallback for durations reads only the first word's number. The timetable reader writes durations such as "1 hour", so such a duration is read as 1 minute. The model keeps this as written (`Utils.ParseIntOfDuration`), and it is not listed as a defect.
- The text of zod's own message for an invalid day is not modelled (`EditSheet.Message` gives "" for it).
