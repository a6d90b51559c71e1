# Alarm: recurrence and scheduling decisions

This project models the decision logic of an iOS alarm app in Dafny, without its user interface. The logic covers:

- **The alarm record.** It has two recurrence modes: a set of calendar weekdays, or a single target date. Holidays can optionally be skipped.
- **The recurrence engine.** `fires(on:holidays:)` decides whether an alarm rings on a day. `nextFireDates` is a bounded 730-day forward scan.
- **Date keys.** Holidays are keyed by the date string `yyyy-MM-dd`.
- **The holiday directory.** It keeps a per-year map of holiday keys and a set of years in flight. It fetches only missing years, keeps only days off, and has a durable cache.
- **Two schedule planners.**
  - Notification requests are cancelled by identifier prefix and added again. Commute alarms get a "leave now" reminder per arrival.
  - On the system-alarm platform, alarms use native weekly recurrence or at most five fixed alarms. Their identifiers are recorded per alarm.
- **The store.** It coordinates add, delete, toggle and update, and refreshes the travel time before rescheduling.
- **Calendar reconciliation.** Alarms are created, updated or deleted to match upcoming calendar events.
- **Small pure rules from the views and settings:**
  - the editor's save guard and its form-to-alarm mapping;
  - the repeat label;
  - the list order and the next alarm;
  - the calendar's day range, decoration and reload token;
  - the widget's refresh policy;
  - the settings' defaults;
  - the transport enumeration;
  - the flag emoji;
  - the destination picker's address line.

**How time is modelled.** Instants are whole seconds of local wall-clock time since 1970-01-01 00:00 in a zone with a fixed offset. Day `d` is `t / 86400`. Its weekday is `(d + 4) % 7 + 1`, where 1 is Sunday. Calendar dates use the proleptic Gregorian calendar, with round trips proved both ways.

**What becomes a parameter.** These are explicit parameters:

- every clock reading;
- every `UUID()`;
- the holiday source's answer;
- the route estimate;
- the event store's answer;
- whether the system-alarm service exists.

The notification center is a map from identifier to request. The system-alarm service is a map from identifier to alarm, plus the string arrays that the app keeps in `UserDefaults`.

Modules follow the source files:

| module | file |
|---|---|
| `AlarmModel` | Alarm.swift |
| `Civil`, `TimeModel`, `DateFormat`, `Decimal` | DateExtensions.swift and the calendar it relies on |
| `Holidays`, `HolidayCache` | HolidayService.swift |
| `Notifications` | NotificationService.swift |
| `AlarmKit` | AlarmKitService.swift |
| `Store` | AlarmStore.swift |
| `CalendarSync` | CalendarService.swift |
| `Editor` | AddAlarmView.swift |
| `RowLabel` | AlarmRowView.swift |
| `AlarmList` | AllAlarmsView.swift |
| `CalendarGrid` | CalendarView.swift |
| `Widget` | the timeline provider and the widget snapshot |
| `Settings` | AppSettings.swift and `flagEmoji` |
| `Commute` | CommuteService.swift |
| `Destination` | DestinationPickerView.swift |
| `Ids`, `Seqs`, `Sorting`, `Wrappers` | shared vocabulary |

## Model

| member | source | states |
|---|---|---|
| AlarmModel.NewAlarm | Models/Alarm.swift:19-45 | A new alarm is enabled and keeps exactly the given title, time, target date, weekdays and skip flag. Commute is off with a 15-minute buffer, and the lunar and event fields are unset. |
| AlarmModel.FiresIsEnabledAndEligible | Models/Alarm.swift:52-63 | `fires` holds exactly when the alarm is enabled and the day passes the scan's day rule. A disabled alarm fires on no date. So does a skipped holiday. |
| AlarmModel.RepeatingIgnoresTarget | Models/Alarm.swift:57-62 | With weekdays set, changing the target date never changes on which dates the alarm fires. |
| AlarmModel.NoModeNeverFires | Models/Alarm.swift:57-62 | Without weekdays and without a target date the alarm fires on no date. |
| AlarmModel.LunarFieldsIgnored | Models/Alarm.swift:52-63 | The lunar fields and the calendar-event link have no influence on firing. |
| AlarmModel.WeeklyPeriodic | Models/Alarm.swift:57-58 | A weekly alarm that does not skip holidays fires on a date exactly when it fires seven days later. |
| AlarmModel.ScanDay | Models/Alarm.swift:71-96 | One iteration of the scan loop. While fewer than `count` results are held, a day adds at most its own future instant, keeps the results increasing, and ends the scan only for a one-time alarm on its matching day. |
| AlarmModel.ScanProperties | Models/Alarm.swift:71-96 | The loop only appends. Everything it adds is an instant of an eligible day inside its window, later than the clock. The results stay strictly increasing and never exceed `count`, and a one-time alarm yields at most one. |
| AlarmModel.NextFireDates | Models/Alarm.swift:66-99 | At most `count` results, and none when `count` is not positive. Each lies on an eligible day within 730 days from the start's day and is that day's hour and minute. Each is strictly after the clock (not the start), and results strictly increase. |
| AlarmModel.NextFireDatesRepeating | Models/Alarm.swift:71-96 | For a weekly alarm the result is exactly the first `count` future eligible instants of the 730-day window, measured against an independent list of all of them: nothing is skipped and nothing else added. |
| AlarmModel.WeeklyComplete | Models/Alarm.swift:71-96 | When the window holds no more than `count` future firings of a weekly alarm, every one of them is returned. |
| AlarmModel.NextFireDatesOneShot | Models/Alarm.swift:81-91 | A one-time alarm yields its target day's instant when that day lies in the window, is not a skipped holiday, and the instant is still ahead; otherwise nothing. |
| AlarmModel.PastTargetGivesNothing | Models/Alarm.swift:87-91 | The scan stops at the first matching day even when that day's instant is already past, so a past target yields an empty result. |
| AlarmModel.NextFireDatesIgnoresEnabled | Models/Alarm.swift:66-99 | The scan's result does not depend on `isEnabled`, unlike `fires`. |
| AlarmModel.NextFireDatesFire | Models/Alarm.swift:52-99 | For an enabled alarm every scanned instant falls on a date where `fires` holds. |
| AlarmModel.NextFireDatesOnePerDay | Models/Alarm.swift:71-96 | Results fall on pairwise distinct days, in increasing day order. |
| TimeModel.DayStart | Models/Alarm.swift:69 | The start of a day lies in that day. |
| TimeModel.Combine | Models/Alarm.swift:101-105 | A day combined with a time lies in that day, has the time's hour and minute, and has second zero. |
| TimeModel.CombineMonotone | Models/Alarm.swift:87-95 | The same time of day on a later day is a later instant. |
| TimeModel.CombineOwnMinute | Models/Alarm.swift:101-105 | A whole-minute instant combined with its own day is itself. |
| TimeModel.MinuteFloor | Services/NotificationService.swift:98-101 | A calendar trigger built from year to minute fires in the instant's own minute, never after it. |
| Civil.CivilFromDaysValid | Views/Calendar/CalendarView.swift:65-69 | Every day number names a valid calendar date, with the day within its month's length. |
| Civil.DaysCivilRoundTrip | Views/Calendar/CalendarView.swift:65-69 | Converting a day number to a calendar date and back gives the same day number. |
| Civil.CivilFromDaysInjective | Utils/DateExtensions.swift:4-10 | Distinct days have distinct calendar dates. |
| Civil.Weekday | Models/Alarm.swift:58 | The weekday component is always in 1…7. 1970-01-01, day 0, is a Thursday (5). |
| Civil.WeekdayOfNextDay | Models/Alarm.swift:78 | The next day's weekday follows cyclically: Saturday (7) is followed by Sunday (1). |
| Civil.WeekdayOfNextWeek | Models/Alarm.swift:78 | A week later is the same weekday. |
| DateFormat.YmdKey | Utils/DateExtensions.swift:4-10 | For years up to 9999, the key has 10 characters: four digits, '-', two digits, '-', two digits, all ASCII. |
| DateFormat.YmdKeyParts | Utils/DateExtensions.swift:6 | Year, month and day can be read back from the key's zero-padded fields. |
| DateFormat.YmdKeyInjective | Utils/DateExtensions.swift:4-10 | Different common-era dates have different keys. |
| DateFormat.DayKeySameIff | Utils/DateExtensions.swift:4-10 | Two common-era days share a key exactly when they are the same local day. |
| DateFormat.TimeString | Utils/DateExtensions.swift:12-16 | `HH:mm` has five characters: two digits, ':', two digits. The digits read back as the 24-hour hour and the minute. |
| DateFormat.TimeStringSameIff | Utils/DateExtensions.swift:21 | Two instants show the same time string exactly when their hour and minute agree. |
| Decimal.Digits | Utils/DateExtensions.swift:6 | The rendering is non-empty ASCII digits, and its width grows with the number's magnitude. |
| Decimal.Padded | Utils/DateExtensions.swift:6 | A zero-padded field has the requested width, or the number's own width when that is larger. |
| Decimal.PaddedRoundTrip | Utils/DateExtensions.swift:6 | Parsing a padded field gives back the number. |
| Decimal.PaddedInjective | Utils/DateExtensions.swift:6 | Different numbers never render to the same padded field. |
| Decimal.IntString | Services/NotificationService.swift:102 | An integer's decimal text is non-empty and starts with '-' exactly for negative numbers. |
| Decimal.IntStringRoundTrip | Services/NotificationService.swift:102 | Parsing the decimal text gives the integer back. |
| Decimal.IntStringInjective | Services/NotificationService.swift:123 | Different integers have different decimal texts, so identifiers that embed epochs differ. |
| Ids.ParseUuidRoundTrip | Services/AlarmKitService.swift:72 | Every identifier the app writes, the canonical upper-case form, parses back to itself. |
| Ids.ParseUuidRejects | Services/AlarmKitService.swift:72 | Parsing fails for a string of the wrong length, for one without a hyphen at positions 8, 13, 18 and 23, and for one holding a character other than a hyphen or a hexadecimal digit. |
| Ids.UuidPrefixUnique | Services/NotificationService.swift:72 | At most one identifier string is a prefix of a given string, so the prefix filter cannot confuse two alarms. |
| Ids.UuidNotPrefixOfSnooze | Services/NotificationDelegate.swift:55 | No alarm identifier is a prefix of a "snooze-" request. |
| Seqs.Dedup | Views/Alarm/AddAlarmView.swift:52 | Listing a set built from an array lists each element of the array once and nothing else. |
| Seqs.DedupFixedIff | Views/Alarm/AddAlarmView.swift:52 | Listing through a set returns the array unchanged exactly when the array has no duplicates. |
| Seqs.JoinLength | Views/Commute/DestinationPickerView.swift:83 | The joined string holds every part plus one separator between each pair of neighbours. |
| Sorting.Sort | Views/Alarm/AllAlarmsView.swift:14 | Sorting yields a permutation of the input, ascending by key. |
| Sorting.SortStable | Services/CalendarService.swift:36 | Items with equal keys keep their relative order. |
| Sorting.SortByValueIff | Views/Alarm/AlarmRowView.swift:31 | Two integer lists sort to the same list exactly when they hold the same values equally often. |
| Holidays.HolidaysFor | Services/HolidayService.swift:22-24 | A year that is not loaded has no holidays, and a loaded year's holidays are part of the union. |
| Holidays.AllHolidaysIsUnion | Services/HolidayService.swift:18-20 | A key is in `allHolidays` exactly when some loaded year holds it. |
| Holidays.IsHolidayInAll | Services/HolidayService.swift:26-29 | `isHoliday` consults only the date's own year bucket, and a holiday so found is in `allHolidays`. |
| Holidays.DaysOffExcludesWorkdays | Services/HolidayService.swift:52-56 | A make-up working day's date is not kept, unless a day-off entry has the same date. |
| Holidays.DaysOffKeepsHolidays | Services/HolidayService.swift:52-56 | Every day-off entry's date is kept. |
| Holidays.SaveCache | Services/HolidayService.swift:74-79 | The cache holds every loaded year, each year's set as an array of its elements listed once. Loading the cache gives back exactly the in-memory map. |
| Holidays.Init | Services/HolidayService.swift:14 | Nothing is in flight at start. The map starts empty without a cache, and otherwise holds the cached years. |
| Holidays.Visit | Services/HolidayService.swift:32-42 | For one year: the source is asked exactly when the year is neither loaded nor in flight. A failure changes nothing. A success adds the year's days off and saves the cache. The in-flight set is restored either way. |
| Holidays.EnsureLoaded | Services/HolidayService.swift:32-62 | See the bullet list below the table. |
| HolidayCache.SetToArray | Services/HolidayService.swift:74-79 | The array lists every element of the set exactly once. |
| HolidayCache.LoadCache | Services/HolidayService.swift:66-72 | Loading keeps exactly the cached years. |
| Notifications.CommuteIdInjective | Services/NotificationService.swift:102 | Different arrivals of one alarm get different commute identifiers. |
| Notifications.RegularIdInjective | Services/NotificationService.swift:123 | Different instants of one alarm get different alarm identifiers. |
| Notifications.CommuteAndRegularIdsDiffer | Services/NotificationService.swift:102-123 | A commute identifier never equals an alarm identifier of the same alarm. |
| Notifications.Departure | Services/NotificationService.swift:86-88 | The departure is exactly travel time plus buffer minutes before the arrival, and never after it when both are non-negative. |
| Notifications.CommuteRequest | Services/NotificationService.swift:85-105 | The reminder is named after the alarm and the arrival, fires in the departure's minute, and has the default sound and no category. |
| Notifications.RegularRequest | Services/NotificationService.swift:107-126 | The alarm notification is named after the alarm and the instant, and fires in that instant's minute. Its title is the alarm's title or "Alarm". It carries the alarm category, the ringtone and the fire time. |
| Notifications.Leaving | Services/NotificationService.swift:50-89 | Exactly the arrivals whose departure is still ahead of now are kept. |
| Notifications.LeavingIncreasing | Services/NotificationService.swift:50-89 | Dropping arrivals keeps the rest in increasing order. |
| Notifications.PlansDistinct | Services/NotificationService.swift:102-123 | Requests planned for increasing instants have pairwise distinct identifiers. |
| Notifications.CommutePlanHas | Services/NotificationService.swift:50-52 | The commute plan holds an arrival's reminder exactly when it plans that arrival. |
| Notifications.RegularPlanHas | Services/NotificationService.swift:59-61 | The regular plan holds an instant's notification exactly when it plans that instant. |
| Notifications.AddEach | Services/NotificationService.swift:104 | After adding, the pending identifiers are the old ones plus the added ones, and a pending request no added request names is unchanged. |
| Notifications.AddEachStores | Services/NotificationService.swift:104 | An added request is pending afterwards unless a later one reuses its identifier. |
| Notifications.CancelPending | Services/NotificationService.swift:67-74 | Cancelling removes exactly the pending requests whose identifier starts with the alarm's identifier and leaves every other request as it was. |
| Notifications.CancelKeepsOthers | Services/NotificationService.swift:67-74 | Other alarms' requests and snooze requests survive a cancel unchanged. |
| Notifications.Cancel | Services/NotificationService.swift:67-80 | Cancel clears the alarm's pending requests. On the system-alarm platform it also cancels the alarm's system alarms; elsewhere it leaves them untouched. |
| Notifications.Upcoming | Services/NotificationService.swift:50-59 | At most 20 instants are planned ahead, all after now and strictly increasing. |
| Notifications.ScheduleDisabled | Services/NotificationService.swift:44-46 | A disabled alarm ends with no pending request of its own and no system-alarm record. |
| Notifications.SchedulePendingIsAdded | Services/NotificationService.swift:44-64 | Scheduling is cancel-then-add. What the branch adds belongs to the alarm and has distinct identifiers. |
| Notifications.ScheduleKeepsOthers | Services/NotificationService.swift:44-74 | Scheduling never touches another alarm's request or a snooze request. |
| Notifications.ScheduleOwnRequests | Services/NotificationService.swift:44-64 | Afterwards the alarm's own pending requests are exactly the requests its branch added. |
| Notifications.ScheduleCommute | Services/NotificationService.swift:48-89 | An enabled commute alarm with travel time takes this branch on every platform. System alarms are only cancelled. At most 20 reminders are added, one per upcoming arrival whose departure is still ahead. |
| Notifications.ScheduleHandsOver | Services/NotificationService.swift:54-56 | On the system-alarm platform a regular alarm is handed to that planner and no notification is added. |
| Notifications.ScheduleRegular | Services/NotificationService.swift:57-62 | Elsewhere a regular alarm gets one notification per upcoming instant, at most 20, and the system alarms are untouched. |
| Notifications.ScheduleIdempotent | Services/NotificationService.swift:44-64 | Scheduling twice with the same alarm, holidays, clock, platform and ringtone leaves the same pending requests as scheduling once. |
| AlarmKit.LocaleWeekdayOf | Services/AlarmKitService.swift:148-159 | The conversion is defined exactly on 1…7. |
| AlarmKit.LocaleWeekdayInjective | Services/AlarmKitService.swift:148-159 | Distinct calendar weekdays give distinct locale weekdays. |
| AlarmKit.LocaleWeekdayOnto | Services/AlarmKitService.swift:148-159 | Every locale weekday comes from some calendar weekday in 1…7. |
| AlarmKit.CompactWeekdays | Services/AlarmKitService.swift:44 | Invalid entries are dropped, and with valid entries none is lost. |
| AlarmKit.CompactWeekdaysMembers | Services/AlarmKitService.swift:44 | A locale weekday is scheduled exactly when some stored entry converts to it. |
| AlarmKit.KitKey | Services/AlarmKitService.swift:81-83 | The bookkeeping key is the fixed prefix followed by the alarm's identifier. |
| AlarmKit.KitKeyInjective | Services/AlarmKitService.swift:81-83 | Different alarms have different bookkeeping keys. |
| AlarmKit.AlertTitle | Services/AlarmKitService.swift:91 | The alert title is never empty: it is the alarm's title, or "Alarm" when that is empty. |
| AlarmKit.CancelIds | Services/AlarmKitService.swift:70-75 | Exactly the recorded identifiers that parse are cancelled. Unparseable ones are skipped, and other alarms are untouched. |
| AlarmKit.Cancel | Services/AlarmKitService.swift:69-77 | The record is removed and every other record is kept. The recorded system alarms are cancelled and no others. |
| AlarmKit.Plan | Services/AlarmKitService.swift:42-62 | The native branch is taken exactly for a weekly, non-lunar alarm that does not skip holidays, and gives one weekly schedule at the alarm's hour and minute. Otherwise there is one fixed schedule per `nextFireDates(count: 5)` instant. |
| AlarmKit.AddAll | Services/AlarmKitService.swift:57-61 | Exactly the identifiers the system accepts join the scheduled alarms, each with its schedule, the alert title and the snooze length. A refused identifier, and every existing alarm, is left as it was. |
| AlarmKit.Schedule | Services/AlarmKitService.swift:31-65 | Schedule always cancels first, and a disabled alarm stops there. For an enabled one, the record lists every new identifier whether or not the system accepted it; each accepted one is scheduled with its plan, and a refused one stays cancelled. |
| AlarmKit.ScheduleDisabled | Services/AlarmKitService.swift:31-76 | A disabled alarm keeps no record and none of its old system alarms. |
| AlarmKit.ScheduleRecords | Services/AlarmKitService.swift:40-64 | Every recorded identifier parses, an accepted one is scheduled, and a refused one that was not scheduled before is not scheduled after. The native branch records exactly one identifier, a weekly alarm on the compacted weekdays when accepted; otherwise one identifier per upcoming instant, at most five, each accepted one a fixed alarm at its instant. |
| AlarmKit.ScheduleKeepsOtherRecords | Services/AlarmKitService.swift:64-76 | Scheduling leaves other alarms' records as they were. |
| AlarmKit.CancelWithoutRecord | Services/AlarmKitService.swift:70-76 | Cancelling an alarm without a record changes nothing. |
| AlarmKit.CancelUndoesSchedule | Services/AlarmKitService.swift:31-77 | Scheduling then cancelling leaves what cancelling alone leaves, when the new identifiers were unused. |
| Store.ReplaceById | Services/AlarmStore.swift:43-46 | Storing an edited alarm rewrites the entry with its identifier and no other, keeping the order. |
| Store.RemoveById | Services/AlarmStore.swift:31-35 | Deleting removes the alarm with the identifier and keeps every other alarm. |
| Store.Refresh | Services/AlarmStore.swift:68-80 | The travel time is overwritten only for a commute alarm with a destination whose estimate succeeded. Otherwise the alarm is unchanged. Its partner `Store.RefreshKeepsRecurrence` shows that the refresh never changes on which days the alarm fires. |
| Store.RefreshKeepsRecurrence | Services/AlarmStore.swift:68-80 | The refresh never changes on which days the alarm fires. |
| Store.Reschedule | Services/AlarmStore.swift:65-85 | The alarm with the given identifier becomes its refreshed self and no other alarm changes. The devices are what scheduling that refreshed alarm against every loaded holiday gives, and the holiday directory is left alone. |
| Store.Add | Services/AlarmStore.swift:24-29 | The new alarm joins the end of the list with its refreshed travel time, and identifiers stay unique. The devices are what scheduling the refreshed alarm gives, and the holidays are unchanged. |
| Store.Delete | Services/AlarmStore.swift:31-35 | The alarm leaves the list and every other alarm stays. The devices are what cancelling the alarm gives, and the holidays are unchanged. |
| Store.Toggle | Services/AlarmStore.swift:37-41 | The stored alarm becomes its refreshed self with the enabled flag flipped, every other alarm is unchanged, and the list keeps its identifiers in order. The devices are what scheduling the toggled alarm gives. |
| Store.Update | Services/AlarmStore.swift:43-46 | The stored alarm becomes the edited one, refreshed, every other alarm is unchanged, and the list keeps its identifiers in order. The devices are what scheduling the edited alarm gives. |
| Store.RescheduleRequests | Services/AlarmStore.swift:65-85 | After a reschedule the pending requests carrying the alarm's prefix are exactly the requests freshly built for the refreshed alarm, each with its content, and every other pending request is untouched. |
| Store.ToggleTwice | Services/AlarmStore.swift:37-41 | Toggling twice restores the enabled flag. |
| Store.ChangesKeepIdsUnique | Services/AlarmStore.swift:37-46 | Update and toggle keep identifiers unique. |
| Store.RemoveKeepsIdsUnique | Services/AlarmStore.swift:31-35 | Deleting keeps identifiers unique. |
| Store.RemoveAbsent | Services/AlarmStore.swift:31-35 | Deleting an alarm that is not stored changes nothing. |
| Store.DeleteUndoesAdd | Services/AlarmStore.swift:24-35 | Adding an alarm and deleting it restores the list. The pending requests end as cancelling alone leaves them. |
| Store.AlarmsOn | Services/AlarmStore.swift:51-53 | The filter keeps each alarm that fires, as often as the list holds it, and drops the rest. |
| Store.AlarmsOnAppend | Services/AlarmStore.swift:51-53 | The filter keeps the list's order: it distributes over concatenation. |
| Store.AlarmsFor | Services/AlarmStore.swift:51-53 | Day lists are filtered with the union of all loaded years' holidays. |
| Store.HasAlarmsIff | Services/AlarmStore.swift:55-57 | `hasAlarms` holds exactly when `alarms(for:in:)` is non-empty. |
| Store.SetupYears | Services/AlarmStore.swift:17-18 | Setup asks for the current calendar year and the next one. |
| Store.Setup | Services/AlarmStore.swift:14-20 | Setup leaves alarms and requests alone. Each of the two years that is not in flight is afterwards loaded exactly when it was before or its fetch succeeded. |
| CalendarSync.UpcomingEvents | Services/CalendarService.swift:31-37 | Without access there are no events. With access they are the store's events of the next 14 days, sorted by start. |
| CalendarSync.CalendarAlarms | Services/CalendarService.swift:58 | Exactly the alarms with an event link are calendar alarms. |
| CalendarSync.DeleteStale | Services/CalendarService.swift:61-66 | An alarm survives phase 1 exactly when no calendar alarm with its identifier is linked to an event that is no longer upcoming. |
| CalendarSync.DeleteStaleKeeps | Services/CalendarService.swift:61-66 | With unique identifiers, phase 1 keeps exactly the alarms that are not linked to a vanished event. |
| CalendarSync.Linked | Services/CalendarService.swift:74 | The lookup finds a calendar alarm linked to the event, and fails only when there is none. |
| CalendarSync.EventAlarmAsWritten | Services/CalendarService.swift:82-86 | The alarm the source creates for an event has no weekdays and no target date. |
| CalendarSync.EventAlarm | Services/CalendarService.swift:82-86 | The corrected alarm is a one-time alarm on the alarm time's day, has no weekdays and does not skip holidays. |
| CalendarSync.Sync | Services/CalendarService.swift:46-47 | Without calendar access the sync changes nothing. |
| CalendarSync.SyncCoversUpcoming | Services/CalendarService.swift:69-89 | After a sync, every upcoming event whose alarm time is ahead has a linked alarm within 30 seconds of that time. |
| CalendarSync.SyncRemovesStale | Services/CalendarService.swift:58-66 | After a sync no alarm is linked to an event that is not upcoming. |
| CalendarSync.SyncKeepsManual | Services/CalendarService.swift:58-66 | Alarms without an event link survive a sync unchanged. |
| CalendarSync.SyncEventsKeeps | Services/CalendarService.swift:69-89 | Phase 2 removes nothing and rewrites only alarms linked to upcoming events. |
| CalendarSync.SyncEventsLength | Services/CalendarService.swift:80-88 | Phase 2 adds exactly one alarm per upcoming event with a future alarm time and no linked alarm, and no other. |
| CalendarSync.EventAlarmNeverFires | Services/CalendarService.swift:82-86 | Under the `fires` of the shown Models/Alarm.swift, which predates the event link, the alarm created as written never fires: the next-fire search finds nothing and nothing is ever scheduled for it. |
| CalendarSync.EventAlarmRingsAtAlarmTime | Services/CalendarService.swift:82-86 | The corrected alarm fires at the alarm time, and that time is the first instant the next-fire search returns. |
| Editor.WeekdayItemsFollowTheWeek | Views/Alarm/AddAlarmView.swift:36-39 | The selector shows every weekday once, Monday first, following the days of a week in order. |
| Editor.BufferStep | Views/Alarm/AddAlarmView.swift:180 | The buffer stays within 0…60 and on multiples of 5. A press moves it toward its bound. |
| Editor.BufferStepUndo | Views/Alarm/AddAlarmView.swift:180 | Away from the bounds, one press down undoes one press up and the reverse. |
| Editor.LunarChoices | Views/Alarm/AddAlarmView.swift:239-248 | The pickers offer 1…12 months and 1…30 days, in order. |
| Editor.LunarChoicesRange | Views/Alarm/AddAlarmView.swift:239-248 | A value is offered exactly when it lies in the picker's range. |
| Editor.ToggleWeekday | Views/Alarm/AddAlarmView.swift:265-270 | A press selects the weekday exactly when it was not selected. Every other weekday is unchanged. |
| Editor.ToggleWeekdayTwice | Views/Alarm/AddAlarmView.swift:265-270 | Pressing the same weekday twice restores the selection. |
| Editor.NextHour | Views/Alarm/AddAlarmView.swift:81-87 | A new alarm's default time is the next whole hour, strictly after now and at most an hour ahead. |
| Editor.NewForm | Views/Alarm/AddAlarmView.swift:64-88 | New-alarm defaults: empty title, next hour, the initial date, not repeating, not lunar, lunar 1/1, no commute, automobile, 15-minute buffer. |
| Editor.EditForm | Views/Alarm/AddAlarmView.swift:47-63 | Opening an alarm shows its values. Repeat is on exactly when it has weekdays. The date is its target or the initial date, and an unknown transport shows as automobile. |
| Editor.SavedTarget | Views/Alarm/AddAlarmView.swift:320-340 | The saved target date is nil exactly when the alarm is lunar or repeating, and otherwise it is the chosen date. Its effect on ringing is stated by `Editor.CreateRingsAsChosen` and `Editor.AsWrittenRingsOnHiddenWeekdays`. |
| Editor.SavedWeekdaysAsWritten | Views/Alarm/AddAlarmView.swift:321-341 | As the code writes it, the weekdays are empty for a lunar alarm and are otherwise the selection, whatever the Repeat toggle says. `Editor.AsWrittenRingsOnHiddenWeekdays` shows the consequence: the alarm rings on the hidden weekdays and not on the shown date. |
| Editor.SavedWeekdays | Views/Alarm/AddAlarmView.swift:321-341 | The corrected mapping stores weekdays exactly for a weekly non-lunar alarm with a selection. |
| Editor.CreateWith | Views/Alarm/AddAlarmView.swift:336-356 | A new alarm copies the form. Commute details are copied only with a destination, travel seconds are minutes times 60, and otherwise commute stays off. |
| Editor.EditWith | Views/Alarm/AddAlarmView.swift:313-334 | An edit keeps identifier, creation time, enabled flag and event link, and copies the form. With a destination, its coordinate, name, transport, buffer and estimated travel seconds are written; without one, latitude is reset to 0 while the chosen commute flag, transport and buffer are kept. |
| Editor.CreateAsWritten | Views/Alarm/AddAlarmView.swift:336-356 | Creation as written stores the selection as weekdays even with Repeat off. |
| Editor.Create | Views/Alarm/AddAlarmView.swift:336-356 | Creation stores weekdays only for a weekly alarm. |
| Editor.Edit | Views/Alarm/AddAlarmView.swift:313-334 | An edit stores weekdays only for a weekly alarm. |
| Editor.AsWrittenRingsOnHiddenWeekdays | Views/Alarm/AddAlarmView.swift:321-341 | With Repeat off and a leftover selection, the saved alarm rings weekly on the hidden days and not on the date the form shows. |
| Editor.CreateRingsAsChosen | Views/Alarm/AddAlarmView.swift:312-356 | A saved non-lunar alarm rings on exactly the days the form shows. |
| Editor.EditRingsAsChosen | Views/Alarm/AddAlarmView.swift:313-334 | An edited, enabled non-lunar alarm rings on exactly the days the form shows. |
| Editor.SavableRings | Views/Alarm/AddAlarmView.swift:91-95 | A form that passes `canSave` gives an alarm that rings on some day. With commute on it keeps a destination. |
| Editor.EditUnchangedIff | Views/Alarm/AddAlarmView.swift:313-334 | Opening an alarm and saving without a change leaves it unchanged exactly when it has the shape the editor itself produces. |
| RowLabel.MonthName | Views/Alarm/AlarmRowView.swift:21 | Months 1–12 show their lunar name; any other number shows as the number followed by 月. Its partner `RowLabel.LunarLabelFirst` shows that a lunar alarm's label is built from these names, whatever its weekdays and target date. |
| RowLabel.DayName | Views/Alarm/AlarmRowView.swift:22 | Days 1–30 show their lunar name; any other number shows as the number followed by 日. It is used with `RowLabel.MonthName` in `RowLabel.LunarLabelFirst`. |
| RowLabel.LunarLabelFirst | Views/Alarm/AlarmRowView.swift:20-24 | A lunar alarm's label ignores weekdays and target date. For in-range values it is "农历 " with the month and day names. |
| RowLabel.OneTimeLabels | Views/Alarm/AlarmRowView.swift:25-30 | A non-lunar alarm without weekdays shows its target date when it has one, and "Once" exactly when it has neither. |
| RowLabel.EveryDayLabel | Views/Alarm/AlarmRowView.swift:32 | "Every Day" is shown exactly for seven weekday entries, whatever they are. |
| RowLabel.WeekdaysLabel | Views/Alarm/AlarmRowView.swift:33 | "Weekdays" is shown exactly for Monday to Friday, each once, in any order. |
| RowLabel.WeekendsLabel | Views/Alarm/AlarmRowView.swift:34 | "Weekends" is shown exactly for Sunday and Saturday, each once, in any order. |
| RowLabel.Symbols | Views/Alarm/AlarmRowView.swift:35-38 | The listed symbols come from the calendar's symbols. Out-of-range entries are dropped; with none out of range, the i-th symbol is the one for the i-th weekday. |
| RowLabel.LabelIgnoresOrder | Views/Alarm/AlarmRowView.swift:31 | Reordering the weekdays never changes the label. |
| RowLabel.HolidayBadgeOnce | Views/Alarm/AlarmRowView.swift:78-120 | A row shows the holiday badge at most once. It shows it exactly when the alarm skips holidays and, for a commute alarm, has a destination name. |
| RowLabel.TravelText | Views/Alarm/AlarmRowView.swift:111-116 | "~n min" shows the truncated whole minutes, only when at least one. It never overstates the travel time. |
| RowLabel.Icon | Views/Alarm/AlarmRowView.swift:112 | The icon is the transport's symbol, and "car.fill" for an unknown raw value. |
| AlarmList.KeyMatchesComparator | Views/Alarm/AllAlarmsView.swift:14-22 | The single sort key orders two alarms exactly as the comparator does. |
| AlarmList.SortedAlarms | Views/Alarm/AllAlarmsView.swift:13-23 | The list is a permutation of the alarms, and no alarm comes after one it should precede. |
| AlarmList.SortedAlarmsOrder | Views/Alarm/AllAlarmsView.swift:15-21 | Enabled alarms precede disabled ones. Within one state, alarms ascend by hour·60+minute. |
| AlarmList.FirstFire | Views/Alarm/AllAlarmsView.swift:29 | An alarm's first date is after now and on a day the alarm is eligible. |
| AlarmList.Candidates | Views/Alarm/AllAlarmsView.swift:27-30 | The candidates are exactly the first dates of the enabled alarms. |
| AlarmList.Min | Views/Alarm/AllAlarmsView.swift:31 | The minimum is absent only for no candidates, and is otherwise a candidate no larger than any other. |
| AlarmList.NextAlarmIsEarliest | Views/Alarm/AllAlarmsView.swift:26-32 | There is no next alarm exactly when no enabled alarm has an upcoming date. Otherwise it is the earliest such date, after now. |
| AlarmList.NextAlarmIgnoresDisabled | Views/Alarm/AllAlarmsView.swift:28 | A disabled alarm never changes the next alarm. |
| CalendarGrid.MonthDays | Views/Calendar/CalendarView.swift:63-70 | A month contributes each of its valid days once, in order. |
| CalendarGrid.Months | Views/Calendar/CalendarView.swift:63-71 | The remaining months of a year contribute exactly their valid dates, in order. |
| CalendarGrid.Years | Views/Calendar/CalendarView.swift:62-72 | A span of years contributes exactly its valid dates, in calendar order. |
| CalendarGrid.DateRange | Views/Calendar/CalendarView.swift:58-74 | See the bullet list below the table. |
| CalendarGrid.DecorationAgreesWithDayList | Views/Calendar/CalendarView.swift:93-121 | See the bullet list below the table. |
| CalendarGrid.TokenAsWritten | Views/Calendar/CalendarView.swift:51-55 | The token has one part per alarm, carrying the alarm's identifier and enabled flag, in list order. |
| CalendarGrid.Token | Views/Calendar/CalendarView.swift:51-55 | The corrected token also carries the skip flag, again one part per alarm in order. |
| CalendarGrid.Reloads | Views/Calendar/CalendarView.swift:34-41 | Decorations are reloaded exactly when the token changed. Its partner `CalendarGrid.TokenDecidesBlueDots` shows why that suffices for the corrected token: an unchanged token means unchanged blue dots. |
| CalendarGrid.TokenAsWrittenMissesSkip | Views/Calendar/CalendarView.swift:51-55 | Switching skip-holidays on keeps the token as written, so nothing reloads, although a holiday on one of the alarm's weekdays loses its blue dot. |
| CalendarGrid.PartDecidesFiring | Views/Calendar/CalendarView.swift:51-55 | Two alarms with equal corrected parts fire on the same dates. |
| CalendarGrid.TokenDecidesBlueDots | Views/Calendar/CalendarView.swift:34-55 | With the corrected token, an unchanged token means unchanged blue dots on every day. |
| CalendarGrid.SameSortSameMembers | Views/Calendar/CalendarView.swift:53 | Equal sorted weekdays mean the same weekdays. |
| Widget.Load | Shared/AlarmWidgetSnapshot.swift:17-23 | Nothing stored, or something undecodable, loads as the empty snapshot. Its partner `Widget.SaveLoadRoundTrip` shows that loading returns whatever was saved. |
| Widget.SaveLoadRoundTrip | Shared/AlarmWidgetSnapshot.swift:17-29 | Loading what was saved gives the saved snapshot back. |
| Widget.Placeholder | AlarmWidget/AlarmTimelineProvider.swift:9-11 | The placeholder shows the empty snapshot now: no next alarm, an empty title and no repeat label. `Widget.NothingStoredIsPlaceholder` shows it is also what the widget shows when nothing is stored. |
| Widget.CurrentEntry | AlarmWidget/AlarmTimelineProvider.swift:13-15 | The snapshot entry shows the loaded snapshot now. By `Widget.SaveLoadRoundTrip` that is the last saved snapshot, and by `Widget.NothingStoredIsPlaceholder` the placeholder when nothing is stored. |
| Widget.TimelinePolicy | AlarmWidget/AlarmTimelineProvider.swift:17-30 | One entry with the loaded snapshot. The reload is one minute after an upcoming alarm, else fifteen minutes from now, and always strictly later than now. |
| Widget.RefreshOutlivesShownAlarm | AlarmWidget/AlarmTimelineProvider.swift:22-27 | The reload never comes before the shown alarm has rung, and without an upcoming alarm it comes within fifteen minutes. |
| Widget.NothingStoredIsPlaceholder | AlarmWidget/AlarmTimelineProvider.swift:9-27 | With nothing stored, the widget shows what the placeholder shows and reloads in fifteen minutes. |
| Settings.IntegerFor | Models/AppSettings.swift:28 | A missing key, or one holding no integer, reads as 0. |
| Settings.StringFor | Models/AppSettings.swift:31-39 | A string is read exactly when the key holds one. Its partner `Settings.RestartAfterChanges` shows that every string a setter writes is read back on restart. |
| Settings.Init | Models/AppSettings.swift:27-40 | The settings read the given suite, and snooze is always positive. |
| Settings.InitDefaults | Models/AppSettings.swift:28-39 | Snooze is the stored integer when positive, else 9. The country is the stored code, else the device region when supported, else "CN". The ringtone is the stored one, else "alarm_classic". |
| Settings.Put | Models/AppSettings.swift:13-24 | A setter writes its own key and keeps every other key. |
| Settings.SetSnoozeMinutes | Models/AppSettings.swift:12-14 | Setting snooze changes only snooze among the properties. |
| Settings.SetHolidayCountryCode | Models/AppSettings.swift:18-20 | Setting the country changes only the country among the properties. |
| Settings.SetRingtone | Models/AppSettings.swift:23-25 | Setting the ringtone changes only the ringtone among the properties. |
| Settings.SnoozeRoundTrip | Models/AppSettings.swift:13-29 | A snooze length survives a restart exactly when positive. A stored 0 or negative value reads back as 9. |
| Settings.CountryRoundTrip | Models/AppSettings.swift:19-32 | A set country code survives a restart, whatever the region. |
| Settings.RingtoneRoundTrip | Models/AppSettings.swift:24-39 | A set ringtone survives a restart. |
| Settings.ChangeKeepsAgreement | Models/AppSettings.swift:12-40 | When a restart would read back the settings in memory, it still does after any one setter call. |
| Settings.ChangesKeepAgreement | Models/AppSettings.swift:12-40 | The same holds after any sequence of setter calls. |
| Settings.RestartAfterChanges | Models/AppSettings.swift:12-40 | After a start and any sequence of setter calls, a restart reads back the same country, ringtone and stored keys, and the snooze length unless it is not positive, when it reads back 9. |
| Settings.Shift | Views/Settings/SettingsView.swift:92 | A scalar is shifted by 127397, and the shift fails exactly when the result leaves the scalar range. |
| Settings.FlagEmoji | Views/Settings/SettingsView.swift:90-95 | The output is never longer than the input and consists of shifted scalars. |
| Settings.FlagEmojiRoundTrip | Views/Settings/SettingsView.swift:90-95 | When every scalar can be shifted, nothing is dropped, the order is kept, and shifting back recovers the input. |
| Settings.UpperIsIndicator | Views/Settings/SettingsView.swift:92 | 'A'…'Z' land on the regional indicators U+1F1E6…U+1F1FF, letter for letter. |
| Settings.TwoLetterFlag | Views/Settings/SettingsView.swift:90-95 | A two-letter upper-case code becomes exactly two regional indicators, for its two letters. |
| Settings.LowerIsNoIndicator | Views/Settings/SettingsView.swift:91-92 | There is no case folding: a lower-case letter lands outside the indicator block. |
| Settings.FlagsDiffer | Views/Settings/SettingsView.swift:90-95 | Two upper-case codes give the same flag exactly when they are the same code. |
| Commute.RawValue | Services/CommuteService.swift:24-28 | Raw values lie in 0…2. |
| Commute.FromRaw | Services/CommuteService.swift:24 | `init(rawValue:)` succeeds exactly for 0, 1 and 2. |
| Commute.RawRoundTrip | Services/CommuteService.swift:24-28 | `init(rawValue:)` and `rawValue` are inverse. |
| Commute.Identifier | Services/CommuteService.swift:29 | `id` is the raw value of the case. |
| Commute.AllCasesInOrder | Services/CommuteService.swift:24-28 | `allCases` lists each case once, at the position of its raw value. |
| Commute.PresentationInjective | Services/CommuteService.swift:39-53 | Different transport types have different labels and different icons. |
| Commute.OrAutomobile | Services/AlarmStore.swift:69 | A known raw value gives its case; any other gives automobile. |
| Commute.ErrorDescription | Services/CommuteService.swift:11-18 | Every commute error has a non-empty description. |
| Commute.TravelMinutes | Services/NotificationService.swift:93 | Travel minutes truncate toward zero, so for non-negative seconds they never overstate the travel time and are off by less than a minute. |
| Destination.Present | Views/Commute/DestinationPickerView.swift:81-82 | A part is kept exactly when it is present and non-empty. |
| Destination.Parts | Views/Commute/DestinationPickerView.swift:80-82 | At most three parts are kept, none of them empty. |
| Destination.BriefAddressShape | Views/Commute/DestinationPickerView.swift:79-89 | The address is nil exactly when every part is nil or empty. Otherwise it is the present parts in order, joined by single ", " separators. |
| Destination.FullAddress | Views/Commute/DestinationPickerView.swift:79-85 | With all three parts present the address is "sub, city, area". |
| Destination.BlankPartSkipped | Views/Commute/DestinationPickerView.swift:81-82 | A nil or empty part leaves no trace, not even a separator. |
| Destination.TrimStart | Views/Commute/DestinationPickerView.swift:54 | Leading trimming drops exactly the leading white space. |
| Destination.TrimEnd | Views/Commute/DestinationPickerView.swift:54 | Trailing trimming drops exactly the trailing white space. |
| Destination.TrimEmptyIff | Views/Commute/DestinationPickerView.swift:54 | Trimming leaves nothing exactly when every character is white space. |
| Destination.Search | Views/Commute/DestinationPickerView.swift:53-60 | A search that starts is for the text as typed. |
| Destination.SearchGuard | Views/Commute/DestinationPickerView.swift:53-60 | A query of white space alone clears the results and starts nothing. Any other query is searched untrimmed. |
| Destination.Commit | Views/Commute/DestinationPickerView.swift:67-70 | Commit copies the name (or "") and the coordinate unchanged. Its partner `Destination.EquatorLooksUnset` shows that a committed coordinate on the equator blocks saving. |
| Destination.Apply | Views/Commute/DestinationPickerView.swift:6-70 | Committing writes the three destination fields of the editor and nothing else. |
| Destination.EquatorLooksUnset | Views/Alarm/AddAlarmView.swift:93 | A commute destination on the equator, latitude 0, cannot be saved. Off the equator it can be, other things in order. |

Three rows above need more than one cell:

- **Holidays.EnsureLoaded:**
  - The source is asked once for each requested year that is neither loaded nor in flight, and never for any other year.
  - Loaded years are unchanged.
  - A missing year is loaded afterwards exactly when its fetch succeeded, and then holds exactly its days off.
  - A failure is swallowed.
  - The in-flight set is restored.
  - The cache reflects the map whenever the map changed.
- **CalendarGrid.DateRange:** every day from the year before the current one through two years after it, each once and in calendar order. That is four years, while the code's comment speaks of two years either side.
- **CalendarGrid.DecorationAgreesWithDayList:**
  - The red dot appears exactly for a holiday of the date's own year, and such a holiday is in the union.
  - The blue dot appears exactly when the day's alarm list is non-empty.
  - There is no decoration exactly when there is no dot.

## Left out

- **Platform services.** The views' rendering, permissions and audio are not modelled. Notification categories, the delegate's snooze handling and the app intents are not modelled either. The notification center, the system-alarm manager, the event store, map search and directions, and location are represented only by the state they keep, or by parameters.
- **Asynchrony.** `Task` and `MainActor` hops are treated as sequential calls in program order, so interleavings are not modelled.
- **Floating point.** Latitude, longitude and travel seconds are integers. The equality of latitude with 0 is the only test the code makes on coordinates.
- **Time zones.** Time uses a fixed offset without daylight saving, so every combined wall-clock time exists. Notification identifiers embed the local-epoch instant: the zone offset would shift every epoch by one constant, which changes no distinctness result.
- **Locale-dependent text.** Localised strings are their English keys. A one-time alarm's formatted date is kept as the date. The weekday symbols are a parameter.
- **Encoding.** JSON encoding and decoding of the widget snapshot and the holiday cache are modelled as the decoded value, with `None` for absent or undecodable data. The holiday fetch is a parameter returning the decoded response, and the URL is not modelled.
- **Sync.** `Sync` requires distinct event identifiers. The occurrences of a recurring event share one `eventIdentifier`, and `Dictionary(uniqueKeysWithValues:)` traps on such duplicates (Services/CalendarService.swift:51). That crash is not modelled: the requirement leaves recurring events out.
- **CalendarSync.Sync** models only the alarm list. The cancelling, rescheduling and travel-time refresh that the store's delete, update and add perform on each change (Services/CalendarService.swift:64, 78 and 87) are not composed in; `Store.Delete`, `Store.Update` and `Store.Add` state them for one alarm. The modelled sync creates and retimes alarms with the corrected target date of the last Findings row.
- **Notifications.ScheduleOwnRequests** assumes every request is accepted and the pending set is unbounded. The source drops failed adds silently (`try?`, Services/NotificationService.swift:104 and 125), and the system keeps only the 64 soonest pending notifications.
- **System-alarm failures.** A schedule call that the system alarm service refuses is modelled by the set `kitRefused` of refused identifiers: such an identifier is still recorded but not scheduled. Why the service refuses is not modelled.
- **Time format.** The `hmm` formatter sets no locale (Utils/DateExtensions.swift:12-16). The model assumes ASCII digits and a 24-hour clock wherever a time is rendered as text.
- **Calendar.** The user's calendar (Services/HolidayService.swift:27, Services/AlarmStore.swift:17) is assumed to be Gregorian. With another calendar, such as the Buddhist one, its year would differ from the `yyyy` year of the fixed POSIX formatter that builds the holiday keys; that mismatch is not modelled.
- **Country list.** The supported countries and the device region are parameters of `Settings.Init`. `supportedCountries` is not part of this model.
- **Lunar alarms.** Lunar dates are stored and labelled, but the shown `fires` and `nextFireDates` give them no firing rule, so none is modelled. Country switching is not part of this model.
- **Uuid** covers only canonical upper-case strings, which is all `uuidString` produces. Lower-case input that `UUID(uuidString:)` would also accept is not modelled.
- **Dedup:** Swift leaves the order of `Array(Set(xs))` unspecified. The model keeps first occurrences in order, and only membership is relied on.
- **Sorting.Sort** is stable. Swift does not document `sorted(by:)` as stable, so only the permutation and order properties are claimed for the source.
- **Widget.GetTimeline** reads the clock once, where the provider reads it three times.
- **AlarmModel.Scan** compares every candidate with one clock reading, where Models/Alarm.swift:88 reads `Date()` again on each matching day. A later reading could only drop a candidate that became past during the loop, which the model does not capture.
- **Holidays.Init:** `Init` states the cached years but not their contents. The contents follow from `LoadCache`.
- **CalendarGrid.Decorate** requires a month in 1…12. The calendar always hands over valid dates, and the rollover of out-of-range components is not modelled.
- **Reload token.** The text rendering of the token, and its `|` separator, are modelled as the sequence of parts, which treats the rendering as injective. A change of the holiday set does not change the token either; that is left as the source has it.
- **Settings.IntegerFor:** `integer(forKey:)` and `string(forKey:)` convert between numbers and strings. Only values of the matching kind are modelled.

## Findings

| source | as written | input that shows it | evidently intended | confidence | as-written member | corrected member |
|---|---|---|---|---|---|---|
| Views/Alarm/AddAlarmView.swift:321,341 | The selected weekdays are saved whenever the alarm is not lunar, even with Repeat switched off and the weekday selector hidden. | Select Monday with Repeat on, switch Repeat off, and pick a Wednesday date. The saved alarm keeps the Wednesday target date and the weekdays [2]; the weekdays take precedence in `fires`, so it rings every Monday and never on the Wednesday shown. | Weekdays are saved only when Repeat is on: `isLunar \|\| !isRepeating ? [] : Array(repeatWeekdays)`. | not executed | Editor.AsWrittenRingsOnHiddenWeekdays | Editor.CreateRingsAsChosen, Editor.EditRingsAsChosen |
| Views/Calendar/CalendarView.swift:51-55 | The reload token covers identifier, enabled flag, weekdays and target date, but not `skipHolidays`, on which `fires` depends. | Take an enabled weekly alarm on Mondays with a Monday holiday loaded, and switch skip-holidays on. The token is unchanged, so the calendar keeps the blue dot on that holiday. | The token also includes `skipHolidays`. | not executed | CalendarGrid.TokenAsWrittenMissesSkip | CalendarGrid.TokenDecidesBlueDots |
| Services/CalendarService.swift:82-86 | The alarm created for an event has the event's alarm time but neither weekdays nor a target date, so `fires` never holds for it and nothing is ever scheduled. This holds for the `fires` of the shown Models/Alarm.swift:52-63; that revision declares no `calendarEventID`, so the calendar service was written against a later `Alarm` whose `fires` is not part of this model. | Any upcoming event with an alarm time in the future and no linked alarm: the sync adds an enabled alarm that never rings. | A one-time alarm on the alarm time, with the target date set to it, also when a later sync moves the time. | not executed | CalendarSync.EventAlarmNeverFires | CalendarSync.EventAlarmRingsAtAlarmTime |
