# Memora household state, reminder scheduler and role switch

Memora is a caregiving companion application. A patient, their caregiver
and their family share one household state:
- reminders (scheduled tasks with an "HH:MM" time, a `completed` flag set by
  the patient and a `notified` flag set by the scheduler);
- alerts (SOS, FALL and EMOTION, newest first);
- shared memories;
- an audit log (newest first);
- one shared quote;
- voice messages.

All changes go through one reducer. A scheduler tick scans the reminders
and reports the ones that have come due. A switch button cycles the
application between the patient, caregiver and family views.

This project models:

- `Types.dfy`: the entities and the dispatchable actions. An action with an
  unrecognised tag is `Other`.
- `AppContext.dfy`: the state aggregate and the seed state `InitialState`.
  The reducer `Apply` is a total pure function with one case per action
  kind. `ApplyAll` dispatches a series of actions in order. The list
  rewrites the reducer uses are included: `find`, `map` marking one flag,
  `filter` by id, the acknowledgement `map`, and `includes`.
- `ReducerProperties.dfy`: lemmas about each reducer case. They cover
  what changes, what stays the same, idempotence, the emotion dedup and
  the audit-log texts. Invariants over any series of actions:
  - the log only grows at its head;
  - reminder flags are never switched back off;
  - alerts are never removed.
- `ReminderCheck.dfy`: the body of the scheduler tick as an imperative
  loop (`CheckReminders`). It is proved against the specification function
  `DueIds`, with a model of `split(':')` and of `parseInt(…, 10)`. Lemmas
  show that:
  - a well-formed "HH:MM" reminder is due exactly when its minute is reached;
  - a time with no colon, or whose hours or minutes field has no leading
    digit, parses to NaN and is never due; `parseInt` accepts a sign and
    ignores trailing characters, so some malformed times ("-1:0",
    "08:30pm") do come due;
  - completed or notified reminders are never reported;
  - dispatching the tick's MARK_REMINDER_NOTIFIED actions means the next
    tick does not report those reminders again.
- `ViewSwitch.dfy`: the view cycle Patient → Caregiver → Family → Patient
  and the label naming the next view. The shell's `useState` slot is a
  class with one mutable field.

Each reducer step takes one clock reading, `Stamp(iso, locale)`. The
reading supplies the fresh id (`toISOString()`) and the human-readable
timestamp (`toLocaleString()`). A series of dispatches takes one reading
per dispatch. The scheduler tick takes the minute of the day as a
parameter.

Behaviour worth noting:
- Adding a reminder to the seed state and then completing it leaves a log
  of three entries: the seed entry plus one per action (`AddThenComplete`).
- TRIGGER_SOS always writes a log entry, even for an EMOTION payload. That
  entry reads "Patient triggered an SOS alert!". For EMOTION it also keeps
  whatever `requiresAcknowledgement` value the payload carries, so an
  EMOTION alert can carry `true` (`TriggerSosEffect`).
- COMPLETE_REMINDER for an unknown id still logs an entry, and the entry
  names the title "undefined" (`CompleteReminderLogText`).

## Model

| member | source | states |
|---|---|---|
| AppContext.InitialState | src/context/AppContext.tsx:14-55 | the seed holds three reminders, no alerts, one memory, one log entry, a shared quote and two voice messages |
| AppContext.FindReminder | src/context/AppContext.tsx:60 | `find` gives nothing exactly when no reminder has the id, and otherwise the first reminder with it |
| AppContext.MarkReminders | src/context/AppContext.tsx:69-71 | the map keeps the length and the order; it raises the flag on exactly the reminders with the id and leaves every other one unchanged |
| AppContext.RemoveReminders | src/context/AppContext.tsx:89 | the filter keeps exactly the reminders whose id differs and never grows the list |
| AppContext.TitleOf | src/context/AppContext.tsx:63 | the title interpolated for an optional reminder, "undefined" when absent; stated by `CompleteReminderLogText` |
| AppContext.NewSosAlert | src/context/AppContext.tsx:101-104 | the stored copy of a TRIGGER_SOS payload; stated by `TriggerSosEffect` and `FallScenario` |
| AppContext.Acknowledged | src/context/AppContext.tsx:158-160 | one alert after acknowledgement; stated by `AcknowledgeAlertsEffect` and `AlertsPersist` |
| AppContext.Contains | src/context/AppContext.tsx:134 | `includes`; `ContainsIff` ties it to an occurrence at some position |
| AppContext.IsRepeatedEmotion | src/context/AppContext.tsx:134 | the dedup test; stated by `LogEmotionEffect` and `LogEmotionTwice` |
| AppContext.Apply | src/context/AppContext.tsx:57-173 | the reducer; each case is stated by its `*Effect` lemma and `UnknownActionIsNoOp`, and every action by `LogGrowsAtHead`, `FlagsNeverReset` and `AlertsPersist` |
| AppContext.ApplyAll | src/context/AppContext.tsx:57-173 | a series of dispatches in order, one clock reading each; stated by `LogIsSuffixAfterAll`, `FlagsNeverResetAfterAll` and `ReminderCheck.MarksNotify` |
| AppContext.AcknowledgeAll | src/context/AppContext.tsx:157-161 | the map keeps the length; each alert becomes its acknowledged form |
| ReducerProperties.RemoveRemindersConcat | src/context/AppContext.tsx:89 | filtering distributes over concatenation |
| ReducerProperties.RemoveRemindersAbsent | src/context/AppContext.tsx:89 | filtering out an id nobody has changes nothing |
| ReducerProperties.RemoveRemindersIdempotent | src/context/AppContext.tsx:89 | filtering the same id twice equals filtering once |
| ReducerProperties.MarkRemindersIdempotent | src/context/AppContext.tsx:166-168 | marking the same id twice equals marking once |
| ReducerProperties.AcknowledgeAllIdempotent | src/context/AppContext.tsx:157-161 | acknowledging twice equals acknowledging once |
| ReducerProperties.ContainsIff | src/context/AppContext.tsx:134 | the recursive `includes` holds exactly when the needle occurs at some position |
| ReducerProperties.ContainsFirstChar | src/context/AppContext.tsx:134 | a non-empty needle that occurs in a text has its first character in that text |
| ReducerProperties.ContainsSuffix | src/context/AppContext.tsx:134 | a text includes any of its suffixes |
| ReducerProperties.UnknownActionIsNoOp | src/context/AppContext.tsx:170-171 | an unrecognised action returns the state unchanged |
| ReducerProperties.AddReminderEffect | src/context/AppContext.tsx:74-85 | the reminder is appended at the end; a "Caregiver scheduled" entry with the stamp's id, time and icon "task" is prepended to the log; nothing else changes |
| ReducerProperties.CompleteReminderEffect | src/context/AppContext.tsx:59-73 | exactly the reminders with the id become completed, in place; one log entry with icon "reminder" is prepended; nothing else changes |
| ReducerProperties.CompleteReminderLogText | src/context/AppContext.tsx:60-66 | the log entry names the title of the first reminder with the id, or "undefined" when there is none |
| ReducerProperties.DeleteReminderEffect | src/context/AppContext.tsx:86-90 | the kept reminders are exactly those with a different id; an absent id changes nothing; no log entry; nothing else changes |
| ReducerProperties.DeleteReminderIdempotent | src/context/AppContext.tsx:86-90 | deleting the same id again changes nothing |
| ReducerProperties.MarkNotifiedEffect | src/context/AppContext.tsx:163-169 | exactly the reminders with the id become notified, in place; no log entry; nothing else changes |
| ReducerProperties.MarkNotifiedIdempotent | src/context/AppContext.tsx:163-169 | marking the same id notified again changes nothing |
| ReducerProperties.CompleteReminderIdempotentOnReminders | src/context/AppContext.tsx:59-73 | completing the same id again leaves the reminders unchanged; only the log grows, by one entry at its head |
| ReducerProperties.TriggerSosEffect | src/context/AppContext.tsx:91-109 | the payload is prepended to the alerts with its flag forced to true for SOS and FALL and kept otherwise; the log text and icon depend on FALL versus any other kind |
| ReducerProperties.AcknowledgeAlertsEffect | src/context/AppContext.tsx:154-162 | every SOS or FALL alert gets the flag false, in place; EMOTION alerts and everything else are unchanged |
| ReducerProperties.AcknowledgeAlertsIdempotent | src/context/AppContext.tsx:154-162 | acknowledging again changes nothing |
| ReducerProperties.LogEmotionEffect | src/context/AppContext.tsx:132-153 | when the newest alert is an EMOTION alert mentioning the emotion, the state is unchanged; otherwise one EMOTION alert without a flag and one "emotion" log entry are prepended |
| ReducerProperties.LogEmotionTwice | src/context/AppContext.tsx:133-136 | logging the same emotion twice in a row adds nothing the second time |
| ReducerProperties.LogEmotionThenOther | src/context/AppContext.tsx:132-153 | a second emotion not mentioned in the first alert's message adds a second alert |
| ReducerProperties.SadNotInHappyMessage | src/context/AppContext.tsx:134 | "sad" does not occur in the alert message for "happy" |
| ReducerProperties.HappyThenSadYieldsTwoAlerts | src/context/AppContext.tsx:132-153 | "happy" then "sad" adds two alerts, the newest for "sad" and the next for "happy" |
| ReducerProperties.AddMemoryEffect | src/context/AppContext.tsx:110-121 | the memory is prepended with a "shared a new memory" log entry; nothing else changes |
| ReducerProperties.AddQuoteEffect | src/context/AppContext.tsx:122-126 | the shared quote is replaced and nothing else changes |
| ReducerProperties.AddVoiceMessageEffect | src/context/AppContext.tsx:127-131 | the voice message is prepended and nothing else changes |
| ReducerProperties.AddThenComplete | src/context/AppContext.tsx:59-85 | adding a reminder with a fresh id and then completing it leaves it last and completed, with the two log texts at the head and two more log entries |
| ReducerProperties.FallScenario | src/context/AppContext.tsx:91-162 | a FALL alert arrives requiring acknowledgement with the fall log text; after acknowledgement it no longer requires it and the log is unchanged |
| ReducerProperties.LogGrowsAtHead | src/context/AppContext.tsx:57-173 | every action either leaves the log alone or prepends exactly one entry |
| ReducerProperties.LogIsSuffixAfterAll | src/context/AppContext.tsx:57-173 | after any series of dispatches, each with its own clock reading, the old log is a suffix of the new one |
| ReducerProperties.FlagsNeverReset | src/context/AppContext.tsx:57-173 | after one action every reminder is the added one or descends from an old one with no flag switched off |
| ReducerProperties.DescendsTransitive | src/context/AppContext.tsx:57-173 | descent (same fields, flags only switched on) composes |
| ReducerProperties.FlagsNeverResetAfterAll | src/context/AppContext.tsx:57-173 | after any series of dispatches, each with its own clock reading, every reminder descends from a starting or added reminder |
| ReducerProperties.AlertsPersist | src/context/AppContext.tsx:57-173 | no action removes or reorders alerts or changes anything but the flag; only TRIGGER_SOS adds an alert requiring acknowledgement |
| ReducerProperties.AlertsPersistAfterAll | src/context/AppContext.tsx:57-173 | after any series of dispatches, each with its own clock reading, the old alerts are the tail of the new list, in order, each unchanged or acknowledged |
| ReminderCheck.MinuteOfDay | src/App.tsx:35-37 | the minute of the day lies in 0..1439 and gives back the hour and the minute |
| ReminderCheck.UpTo | src/App.tsx:45 | the text before the first separator: a prefix without the separator, stopping at it |
| ReminderCheck.SkipSpace | src/App.tsx:46-47 | `parseInt` drops the longest run of leading white space and keeps the rest |
| ReminderCheck.DigitPrefix | src/App.tsx:46-47 | `parseInt` reads the longest prefix made only of digits |
| ReminderCheck.SplitTime | src/App.tsx:45 | the two first fields of `split(':')`; stated by `SplitFormattedTime` and `NoColonNeverDue` |
| ReminderCheck.ParseInt | src/App.tsx:46-47 | `parseInt(…, 10)` with NaN as none; stated by `TwoDigitsParse` and `NoHourDigitsNeverDue` |
| ReminderCheck.ReminderMinutes | src/App.tsx:45-49 | the reminder's minute of the day; stated by `MinutesFromParts` and `ParseFormattedTime` |
| ReminderCheck.IsDue | src/App.tsx:40-51 | the tick's test; stated by `DueExactlyWhenTimeReached`, `DoneReminderNeverDue` and `DueStaysDue` |
| ReminderCheck.Notifications | src/App.tsx:53-54 | the sound and the dispatch per due id; stated by `NotificationsAt` and `DispatchedNotifications` |
| ReminderCheck.Marks | src/App.tsx:54 | one MARK_REMINDER_NOTIFIED per id, in order |
| ReminderCheck.DueIds | src/App.tsx:39-56 | the tick never reports more reminders than it scans |
| ReminderCheck.CheckReminders | src/App.tsx:39-56 | the loop's effects are a sound and a MARK_REMINDER_NOTIFIED for every due reminder, in list order; its dispatched actions are the marks of the due ids |
| ReminderCheck.IdsWhereConcat | src/App.tsx:39 | selecting ids distributes over concatenation |
| ReminderCheck.DueIdsConcat | src/App.tsx:39-56 | the due ids of two lists are the due ids of each, in order |
| ReminderCheck.TickStep | src/App.tsx:39-56 | scanning one more reminder appends its two effects exactly when it is due |
| ReminderCheck.NotificationsConcat | src/App.tsx:53-54 | the effects of two id lists concatenate |
| ReminderCheck.DispatchedNotifications | src/App.tsx:53-54 | the actions dispatched by the effects are the marks of the ids |
| ReminderCheck.DueIdsSingleton | src/App.tsx:39-56 | a single reminder is reported exactly when it is due |
| ReminderCheck.IdsWhereSound | src/App.tsx:39 | every selected id belongs to a reminder meeting the test |
| ReminderCheck.DueIdsSound | src/App.tsx:39-51 | every reported id belongs to a due reminder of the list |
| ReminderCheck.IdsWhereComplete | src/App.tsx:39 | every reminder meeting the test has its id selected |
| ReminderCheck.DueIdsComplete | src/App.tsx:39-51 | every due reminder of the list is reported |
| ReminderCheck.NotificationsAt | src/App.tsx:53-54 | each due id gives a sound followed by its MARK_REMINDER_NOTIFIED |
| ReminderCheck.DoneReminderNeverDue | src/App.tsx:40-42 | a completed or notified reminder is never reported |
| ReminderCheck.NoColonNeverDue | src/App.tsx:45-51 | a time without a colon parses to NaN minutes and is never due |
| ReminderCheck.NoHourDigitsNeverDue | src/App.tsx:45-51 | a time whose hour part has no leading digits is never due |
| ReminderCheck.NoMinuteDigitsNeverDue | src/App.tsx:45-51 | a time whose minutes field has no leading digits is never due |
| ReminderCheck.NaNNeverDue | src/App.tsx:45-51 | a time with either field NaN is never due |
| ReminderCheck.TwoDigits | src/App.tsx:44 | a two-digit rendering of a number below 100 |
| ReminderCheck.UpToStops | src/App.tsx:45 | splitting stops at the first separator |
| ReminderCheck.UpToAbsent | src/App.tsx:45 | without a separator the whole text is the first field |
| ReminderCheck.TwoDigitsScan | src/App.tsx:46-47 | two digits contain no white space and are all digits |
| ReminderCheck.TwoDigitsValue | src/App.tsx:46-47 | two digits read back as the number |
| ReminderCheck.TwoDigitsParse | src/App.tsx:46-47 | `parseInt` of two digits gives the number |
| ReminderCheck.SplitFormattedTime | src/App.tsx:45 | splitting "HH:MM" gives the two two-digit fields |
| ReminderCheck.MinutesFromParts | src/App.tsx:45-49 | parsed hours and minutes combine to hours * 60 + minutes |
| ReminderCheck.ParseFormattedTime | src/App.tsx:45-49 | an "HH:MM" time reads back as its minute of the day |
| ReminderCheck.DueExactlyWhenTimeReached | src/App.tsx:40-51 | a reminder at "HH:MM" is due exactly when it is pending and its minute is at or before now |
| ReminderCheck.DueStaysDue | src/App.tsx:51 | a due reminder stays due as time goes on |
| ReminderCheck.MarksNotify | src/context/AppContext.tsx:163-169 | dispatching the marks for a list of ids sets `notified` on exactly the reminders with those ids and changes nothing else |
| ReminderCheck.TickThenTickAgain | src/App.tsx:39-56 | after the tick's marks are dispatched, no id reported by it is reported by any later tick |
| ReminderCheck.CheckRemindersAtMostOnce | src/App.tsx:39-56 | a reminder sounds at most once: the effects of the tick, once dispatched, stop it from being reported again |
| ReminderCheck.FormattedReminderReport | src/App.tsx:39-56 | a pending "HH:MM" reminder is reported exactly from its minute on |
| ReminderCheck.MorningSchedule | src/App.tsx:39-56 | reminders at "08:00", "08:30" and "10:00" come due at minutes 480, 510 and 600 |
| ReminderCheck.SeedSchedule | src/context/AppContext.tsx:15-19 | the seed reminders "1", "2" and "3" are reported from 08:00, 08:30 and 10:00 on |
| ViewSwitch.NextView | src/App.tsx:63-71 | a press always moves to a different view |
| ViewSwitch.ViewName | src/App.tsx:73-77 | the name the button shows for a view; stated by `ViewSwitch.ViewSwitcher.GetNextViewName` and `SwitchThreeTimes` |
| ViewSwitch.ThreeSwitchesReturn | src/App.tsx:63-71 | three presses return to the start and visit all three views |
| ViewSwitch.ViewSwitcher.constructor | src/App.tsx:11 | the shell starts in the patient view |
| ViewSwitch.ViewSwitcher.HandleSwitchView | src/App.tsx:63-71 | the view becomes the next one in the cycle |
| ViewSwitch.ViewSwitcher.GetNextViewName | src/App.tsx:73-77 | the label names exactly the view the next press moves to |
| ViewSwitch.SwitchThreeTimes | src/App.tsx:63-77 | from a fresh shell the labels read Caregiver, Family, Patient and the view returns to Patient |

## Left out

- React plumbing: `createContext`, `useReducer`, `AppProvider` and `useAppContext` are not modelled. The reducer is the pure function `Apply`.
- The host clock: each reducer step takes one `Stamp`, and the separate `new Date()` calls of one case are one reading. The seed state's two `toLocaleString()` readings (log entry and quote) are one `locale` parameter too. The tick takes the minute of the day as a parameter, and `getHours`/`getMinutes` are not modelled.
- `setInterval`, its 30-second period, the effect's re-registration on state change, and the closure's possibly stale `state.reminders` are not modelled. The lemmas assume each tick scans the current reminders.
- The audio-unlock listeners and the sound service (`src/services/soundService.ts`) are left out. Playing the reminder sound is the abstract effect `PlayReminderAlert`.
- The `console.log` in the tick, `renderView` and all JSX rendering are left out.
- JavaScript number precision: `parseInt`, the minute arithmetic and voice-message durations use unbounded integers. Very long digit strings, which JavaScript rounds, are not modelled, and neither is `-0`.
- Id uniqueness is not assumed anywhere. Lemmas that need a fresh id say so in their `requires`.
- The asset module supplying the two voice-message URLs is not part of this model. The URLs are opaque strings.
- The TypeScript `types` module is not part of this model. The entity shapes are those the reducer and the tick read and build.
- AppContext.InitialState: its contract states the sizes and emptiness of the seed collections, not every seed field. The seed reminders' times and ids are stated through `ReminderCheck.SeedSchedule`.
