# Notifier: the weekly alarm engine in Dafny

This project models the recurring alarm engine of the Android app
Notifier (Kotlin). A timer has a title, a text, a time of day, a
seven-character weekday mask (Monday first, '1' meaning "fires that day"),
a colour, an optional image and an on/off flag. The engine works as follows:

- Each flagged weekday becomes one exact one-shot alarm, a *slot*. Its key
  is the timer id followed by the weekday index 0..6.
- Each slot carries a snapshot of the timer's payload.
- The slot fires at the next instant on that weekday at the timer's time.
- When an alarm fires, the app shows the alert from the payload. It then
  re-reads the stored timer and, if the timer is still on, schedules it
  again.
- After a reboot every enabled timer is scheduled again.
- The settings screen and the timer rows edit timers. Each edit stores the
  map, persists it, then cancels and/or schedules the timer.

Modules, one per source file or concern:

- `Wrappers`: `Option` and the `Outcome` of a handler (finished, or an
  exception escaped).
- `Text`: the Kotlin/JVM primitives the engine relies on. These are
  32-bit `Int` wrap-around, `toIntOrNull()`, `Int.toString()`,
  `String.hashCode()` and `maxOrNull()`.
- `Types`: the records (`TimerConfig`, alarm extras, alarms,
  notifications). Also the `Device` class, which holds the platform state
  the engine changes in place. That state is the exact-alarm table (slot
  key to trigger and payload), the SDK level, the exact-alarm permission,
  the content of `timers.json` and the alerts shown.
- `AlarmScheduler`: `nextTriggerMillis` as a function, and the slot
  registrar. `scheduleTimer` and `cancelTimer` are methods, each proved
  against a specification function (`Scheduled`, `Cancelled`).
- `AlarmReceiver`: the fire handler.
- `BootReceiver`: the recovery pass.
- `MainActivity`: the new-id rule, the initial form, the weekday toggle,
  the weekday summary builder and the Save, Delete and ON/OFF handlers.
  These handlers act on a `TimerTable` class, which stands for the shared
  `MutableMap`.

Time is counted in minutes of local wall-clock time from an epoch that
falls on Monday 00:00, so the weekday of day `d` is `d % 7 + 1`
(`DayOfWeek.value`). `now` is a parameter and stays fixed during one call.

The invariant between edits is `AlarmScheduler.InSync(timers, alarms)`:
slot (id, i) is armed exactly when id is stored, switched on, and flags
weekday i. With exact alarms permitted, the model proves that every
operation that touches the table keeps this invariant:

- Save (`MainActivity.SaveKeepsSync`);
- toggle on and toggle off (`MainActivity.ToggleKeepsSync`);
- Delete: with the id as the source computes it while the largest
  numeric key is below `Int.MAX_VALUE` (`MainActivity.DeleteAsWrittenKeepsSync`),
  and always with the corrected id (`MainActivity.DeleteKeepsSync`);
- the firing of a slot followed by the fire handler
  (`AlarmReceiver.FiringKeepsSync`).

Recovery from an empty table after a reboot establishes the invariant
(`BootReceiver.RecoveryRestoresSync`).

A malformed stored record is not skipped on its own. `loadTimers` parses
the whole file in one call, so one malformed record makes the load throw.
The recovery pass then stops, and the fire handler throws after it has
shown the alert. The model represents such a file as `Unreadable`: the
handlers report `Threw`, and the recovery pass still calls `finish`
exactly once.

## Model

| member | source | states |
|---|---|---|
| AlarmScheduler.DaysUntil | app/src/main/java/com/example/notifier/AlarmScheduler.kt:108 | `(day - today + 7) % 7` lies in 0..6 and moving that many days forward from today reaches the requested weekday |
| AlarmScheduler.NextTrigger | app/src/main/java/com/example/notifier/AlarmScheduler.kt:96-120 | the trigger is strictly after `now`, at most one week after it, falls on the requested weekday and is at the configured time of day |
| AlarmScheduler.OccurrencesWeeksApart | app/src/main/java/com/example/notifier/AlarmScheduler.kt:112-114 | two instants on the same weekday at the same time of day are a whole number of weeks apart |
| AlarmScheduler.NextTriggerIsEarliest | app/src/main/java/com/example/notifier/AlarmScheduler.kt:105-114 | no instant on that weekday at that time lies after `now` and before the trigger: it is the next occurrence |
| AlarmScheduler.NextTriggerSameDay | app/src/main/java/com/example/notifier/AlarmScheduler.kt:105-114 | on the target weekday, a time still ahead fires today; a time at or before `now` fires exactly one week later at the same time of day |
| AlarmScheduler.NextTriggerExamples | app/src/main/java/com/example/notifier/AlarmScheduler.kt:105-114 | on Tuesday 10:00, a Monday 09:00 slot fires five days and 23 hours later and a Wednesday 09:00 slot the next morning |
| AlarmScheduler.NormalizeMask | app/src/main/java/com/example/notifier/AlarmScheduler.kt:28 | the mask has exactly 7 flags; flag i is set exactly when the string has a '1' at position i (short strings padded with '0', extra characters dropped) |
| AlarmScheduler.SlotKey | app/src/main/java/com/example/notifier/AlarmScheduler.kt:32 | the key is the timer id followed by the single digit of the index |
| AlarmScheduler.SlotKeyRoundTrip | app/src/main/java/com/example/notifier/AlarmScheduler.kt:80 | a slot key decodes back to its (timer id, index) pair, and only that key decodes to it |
| AlarmScheduler.SlotKeyInjective | app/src/main/java/com/example/notifier/AlarmScheduler.kt:32 | distinct (timer id, index) pairs give distinct key strings |
| AlarmScheduler.ArmUpTo | app/src/main/java/com/example/notifier/AlarmScheduler.kt:30-69 | after indices below n: the table holds the old keys plus the flagged slots below n, each flagged slot holds its trigger and payload, every other key keeps its value |
| AlarmScheduler.ScheduledSlots | app/src/main/java/com/example/notifier/AlarmScheduler.kt:30-69 | every flagged weekday is armed with its trigger and payload (replacing an earlier entry), unflagged weekdays of the timer keep what they had, no other key changes |
| AlarmScheduler.ScheduleIdempotent | app/src/main/java/com/example/notifier/AlarmScheduler.kt:58-69 | scheduling the same config twice gives the same table as scheduling it once, since registering under an existing key replaces it |
| AlarmScheduler.SlotKeys | app/src/main/java/com/example/notifier/AlarmScheduler.kt:78-80 | the keys cancelled are exactly the seven slot keys of the timer |
| AlarmScheduler.Cancelled | app/src/main/java/com/example/notifier/AlarmScheduler.kt:74-94 | a key survives cancellation exactly when it is not a slot of the timer, and keeps its value |
| AlarmScheduler.CancelIdempotent | app/src/main/java/com/example/notifier/AlarmScheduler.kt:74-94 | cancelling twice is the same as cancelling once, whether or not the slots were armed |
| AlarmScheduler.CancelledSlots | app/src/main/java/com/example/notifier/AlarmScheduler.kt:78-93 | after cancelling, none of the seven slots is armed and every slot of every other timer is unchanged |
| AlarmScheduler.CancelThenSchedule | app/src/main/java/com/example/notifier/MainActivity.kt:411-415 | after cancel then schedule, slot i is armed exactly when weekday i is flagged, with its trigger and payload, and every key outside the timer's slots is unchanged |
| AlarmScheduler.ScheduleTimer | app/src/main/java/com/example/notifier/AlarmScheduler.kt:23-71 | with exact alarms permitted the table becomes `Scheduled(old table)` and no permission request is made; otherwise the table is unchanged and the permission is requested exactly when some weekday is flagged |
| AlarmScheduler.CancelTimer | app/src/main/java/com/example/notifier/AlarmScheduler.kt:74-94 | the table becomes `Cancelled(old table, timerId)` |
| Text.HashCode | app/src/main/java/com/example/notifier/AlarmScheduler.kt:32 | the request code is an `Int` congruent to the polynomial string hash modulo 2^32 |
| Types.ArgbOf | app/src/main/java/com/example/notifier/AlarmScheduler.kt:39 | the payload colour is a 32-bit `Int` |
| Types.ArgbOfPacked | app/src/main/java/com/example/notifier/AlarmScheduler.kt:39 | for a colour packed from an ARGB word, the payload colour is that same ARGB word |
| Types.LoadTimers | app/src/main/java/com/example/notifier/MainActivity.kt:163-172 | a missing file gives the empty map, a stored map is returned as is, unreadable text gives no map (the exception) |
| AlarmReceiver.RearmTarget | app/src/main/java/com/example/notifier/AlarmReceiver.kt:29-31 | a timer is re-armed exactly when the payload names a timer id that is in the loaded store and that timer is on |
| AlarmReceiver.OnReceive | app/src/main/java/com/example/notifier/AlarmReceiver.kt:12-34 | without title or text nothing changes; otherwise the alert with default colour 0xFF000000 and id 1001 is appended first; an unreadable store throws with the table unchanged; a deleted or disabled timer leaves the table unchanged; an enabled one is scheduled from the stored config |
| AlarmReceiver.FiringKeepsSync | app/src/main/java/com/example/notifier/AlarmReceiver.kt:29-33 | a slot fires (the facility drops it) and the handler re-arms the stored timer if on: the table is in sync with the store again |
| BootReceiver.RecoveryStep | app/src/main/java/com/example/notifier/BootReceiver.kt:16-20 | handling one more stored timer extends the recovered set by exactly that timer's flagged slots when it is on |
| BootReceiver.OnReceive | app/src/main/java/com/example/notifier/BootReceiver.kt:8-25 | another action changes nothing and finishes nothing; boot completion finishes exactly once, throws exactly when the store is unreadable, and with exact alarms permitted re-arms every flagged slot of every enabled timer and nothing else |
| BootReceiver.RecoveredSlots | app/src/main/java/com/example/notifier/BootReceiver.kt:15-20 | after the pass each enabled timer has its flagged slots armed with trigger and payload, and slots of disabled or absent timers are untouched (no cancel is issued) |
| BootReceiver.RecoveryRestoresSync | app/src/main/java/com/example/notifier/BootReceiver.kt:15-20 | starting from an empty table, the pass leaves the table in sync with the store |
| Text.ToIntOrNull | app/src/main/java/com/example/notifier/MainActivity.kt:225 | a key is read as a number exactly when it is an optionally signed run of decimal digits whose value fits an `Int` |
| Text.IntToStringRoundTrip | app/src/main/java/com/example/notifier/MainActivity.kt:225 | reading back what `toString()` printed gives the number |
| Text.MaxOrNull | app/src/main/java/com/example/notifier/MainActivity.kt:225 | no value for the empty set; otherwise an element that is at least every element |
| Text.ToInt32 | app/src/main/java/com/example/notifier/MainActivity.kt:225 | the `Int` result of the increment is congruent to the exact sum modulo 2^32 and equals it when it fits |
| MainActivity.SpelledKeyCounts | app/src/main/java/com/example/notifier/MainActivity.kt:225 | a key that prints as n contributes n to the numbers read from the keys |
| MainActivity.NewIdAsWritten | app/src/main/java/com/example/notifier/MainActivity.kt:224-228 | an existing id is kept; a new timer gets "1" when no key is numeric, and an unused key as long as the largest numeric key is below `Int.MAX_VALUE`; the id reads back as the 32-bit successor of the largest `Int` key |
| MainActivity.NewIdAsWrittenIsSuccessor | app/src/main/java/com/example/notifier/MainActivity.kt:225 | the new id prints the 32-bit successor of the largest numeric key, which is `Int.MIN_VALUE` after `Int.MAX_VALUE` |
| MainActivity.IntKeysOfTwo | app/src/main/java/com/example/notifier/MainActivity.kt:225 | keys printed from two `Int` values are read back as exactly those values |
| MainActivity.NewIdAsWrittenCollides | app/src/main/java/com/example/notifier/MainActivity.kt:225 | with keys "2147483647" and "-2147483648" the new id is "-2147483648", an existing key |
| MainActivity.NewId | app/src/main/java/com/example/notifier/MainActivity.kt:224-228 | an existing id is kept; a new timer's id reads back as one more than the largest numeric key ("1" when there is none) and is never an existing key |
| MainActivity.NewIdAgrees | app/src/main/java/com/example/notifier/MainActivity.kt:225 | the corrected rule and the rule as written agree whenever every numeric key fits an `Int` and the largest is below `Int.MAX_VALUE` |
| MainActivity.SavedConfig | app/src/main/java/com/example/notifier/MainActivity.kt:402-410 | the stored record is switched on |
| MainActivity.SaveThenReopen | app/src/main/java/com/example/notifier/MainActivity.kt:402-410 | reopening the screen of a saved timer shows exactly the form that was saved: title, text, time, days, colour and image are all stored |
| MainActivity.InitialForm | app/src/main/java/com/example/notifier/MainActivity.kt:229-238 | an existing timer's form saves back to its record switched on; a new timer's form has empty texts, the current time, mask "0000000" (no weekday flagged), white and no image |
| MainActivity.ToggleDay | app/src/main/java/com/example/notifier/MainActivity.kt:289-291 | position x becomes '0' if it was '1' and '1' otherwise; length and all other positions are unchanged |
| MainActivity.ToggleDayFlipsMask | app/src/main/java/com/example/notifier/MainActivity.kt:306-308 | a toggle flips exactly that weekday of the normalised mask, and toggling a '0'/'1' position twice restores the string |
| MainActivity.FlaggedDays | app/src/main/java/com/example/notifier/MainActivity.kt:527-528 | the listed weekdays are exactly those flagged with '1', in increasing order |
| MainActivity.TerminatedLength | app/src/main/java/com/example/notifier/MainActivity.kt:529-532 | after n entries the builder holds 4n characters, plus one line break once n reaches 5 |
| MainActivity.SummaryStep | app/src/main/java/com/example/notifier/MainActivity.kt:528-533 | the guard `length + 1 % 17 == 17` holds exactly before the fifth entry, and one flagged weekday adds its entry and ", " |
| MainActivity.TerminatedIsJoined | app/src/main/java/com/example/notifier/MainActivity.kt:535-538 | deleting the last two characters of a non-empty builder leaves the entries joined by ", " |
| MainActivity.TrimmedIsSummary | app/src/main/java/com/example/notifier/MainActivity.kt:535-538 | the trimmed builder is the summary, and a builder of two characters or fewer is already the summary |
| MainActivity.WeekdaySummary | app/src/main/java/com/example/notifier/MainActivity.kt:524-538 | the builder loop returns the flagged weekday names in Monday-to-Sunday order, separated by ", ", with a line break before the fifth |
| MainActivity.SummaryEmptyIff | app/src/main/java/com/example/notifier/MainActivity.kt:524-538 | the summary is empty exactly when the normalised mask flags no weekday |
| MainActivity.SummaryBreaksAtFifth | app/src/main/java/com/example/notifier/MainActivity.kt:529-531 | the summary contains a line break exactly when five or more weekdays are flagged |
| MainActivity.TimerTable.constructor | app/src/main/java/com/example/notifier/MainActivity.kt:179-183 | the shared map starts as the loaded timers |
| MainActivity.SaveTimers | app/src/main/java/com/example/notifier/MainActivity.kt:158-161 | the stored file holds the whole map |
| MainActivity.OnSave | app/src/main/java/com/example/notifier/MainActivity.kt:401-417 | the map gains the form switched on under the id and is persisted; the table becomes cancel-then-schedule of the id; the permission is requested exactly when it is missing and a weekday is flagged |
| MainActivity.OnDelete | app/src/main/java/com/example/notifier/MainActivity.kt:390-398 | the entry is removed only when `timerId != "0"`, the map is persisted, and the id's seven slots are cancelled |
| MainActivity.OnToggle | app/src/main/java/com/example/notifier/MainActivity.kt:585-604 | the switch flips, the row's record is stored with the new flag and persisted; switching on cancels then schedules, switching off only cancels |
| MainActivity.ReplaceKeepsSync | app/src/main/java/com/example/notifier/MainActivity.kt:587-603 | storing a record, cancelling its slots and scheduling it when on keeps the table in sync with the store |
| MainActivity.SaveKeepsSync | app/src/main/java/com/example/notifier/MainActivity.kt:401-415 | with exact alarms permitted, after Save exactly the flagged weekdays of the saved timer are armed and the table is in sync |
| MainActivity.ToggleKeepsSync | app/src/main/java/com/example/notifier/MainActivity.kt:585-604 | with exact alarms permitted, after switching on exactly the flagged weekdays are armed and after switching off none are; the table stays in sync |
| MainActivity.DeleteKeepsSync | app/src/main/java/com/example/notifier/MainActivity.kt:390-398 | with the corrected id, Delete leaves the deleted timer no armed slot and keeps the table in sync |
| MainActivity.DeleteAsWrittenKeepsSync | app/src/main/java/com/example/notifier/MainActivity.kt:390-398 | with the id as written, Delete keeps the table in sync while the largest `Int` key is below `Int.MAX_VALUE` |
| MainActivity.UntouchedNewFormArmsNothing | app/src/main/java/com/example/notifier/MainActivity.kt:236 | saving a new timer's untouched form arms nothing, because its mask defaults to "0000000" |
| MainActivity.DeleteWithCollidingIdBreaksSync | app/src/main/java/com/example/notifier/MainActivity.kt:390-398 | with the id as written, Delete on a new screen whose id collides with an enabled timer cancels that timer's slots while its record stays |

## Left out

- `NotificationHelper.kt` is not part of this model. Showing an alert is
  modelled as appending it to `Device.shown`, so channels, layouts and the
  luminance-based text colour are not modelled.
- Compose layout, navigation, `onBack`, the image picker and
  `copyImageToAppStorage` are presentation and file I/O.
- The id of the settings screen is a parameter of Save and Delete. It is
  given by `NewId` or `NewIdAsWritten`.
- Gson: the JSON text of `timers.json` is not modelled. The file is
  `Missing`, `Stored(map)` or `Unreadable`.
- Time zones, daylight-saving gaps and clock reads are left out. `now` is
  a parameter in local minutes, and `atZone().toInstant().toEpochMilli()`
  is the identity. Minutes rather than milliseconds are used. A `now`
  with seconds compares the same way as its minute, because every
  candidate is minute-aligned.
- `HH:mm` formatting and parsing: the time of day is an (hour, minute)
  pair.
- `Text.HashCode` hashes Unicode scalar values. Java's `String.hashCode`
  hashes UTF-16 code units, so the two differ for characters outside the
  Basic Multilingual Plane. Timer ids are decimal strings, so slot keys
  never contain such characters.
- Hash collisions are left out. The platform identifies a slot by the
  request code `(timerId + index).hashCode()`, but the alarm table is
  keyed by the slot key string.
- `PendingIntent` and `AlarmManager` internals are left out.
  Registering under a key replaces the entry and cancelling removes it.
- The background `Thread` and `goAsync` in `BootReceiver` are left out.
  The pass runs in sequence, and the order in which timers are visited is
  not fixed by the model.
- An exception that would escape `cancelTimer` (and that the handlers'
  `try`/`catch` would swallow) is not modelled: cancelling always
  succeeds.
- Launching the exact-alarm settings screen is modelled only as the
  `askedForPermission` result. The fire handler and the recovery pass
  also make that request when they schedule without the permission, but
  their results do not report it.
- `Types.ArgbOf`: only sRGB packed colours are modelled (the upper 32
  bits of the `ULong`). `Color(timer.color).value` in the row is taken to
  give back `timer.color`. The hex parsing and float channel arithmetic
  of the colour picker are not modelled.
- `Text.ToIntOrNull`: only ASCII digits are accepted. Kotlin also accepts
  other Unicode decimal digits.
- `MainActivity.WeekdaySummary` requires a mask of at least seven
  characters. The source throws an index error on a shorter mask, and
  that exception is not modelled.
- `MainActivity.ToggleDay` requires an index inside the string. The
  source throws on a shorter mask, and that is not modelled either.
- The sync lemmas assume that exact alarms are permitted. Without the
  permission `scheduleTimer` arms nothing, and the table can fall out of
  sync. `ScheduleTimer` states that case.

## Findings

| source | as written | input that shows it | evidently intended | confidence | as-written member | corrected member |
|---|---|---|---|---|---|---|
| app/src/main/java/com/example/notifier/MainActivity.kt:225 | the new id is `max + 1` computed in 32-bit `Int`, which wraps from `Int.MAX_VALUE` to `Int.MIN_VALUE` | stored keys "2147483647" and "-2147483648": the new id is "-2147483648", an existing timer's key, so Save overwrites that timer and Delete cancels its alarms | a new timer's id is never an existing key | not executed | MainActivity.NewIdAsWrittenCollides | MainActivity.NewId |
