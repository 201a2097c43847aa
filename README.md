# LifeTrack Pro core, modelled in Dafny

This project models the stateful core of the LifeTrack Pro habit-tracker bot and proves properties of the model. It has three parts.

- **The reminder scheduler** (`lifetrack_pro/jobs.py`), in `jobs.dfy`.
  - It derives the daily water-reminder clock times from the wake time, sleep time, daily target and cup size.
  - It derives one daily-summary time.
  - It reconciles both against the per-chat registry of the application's `bot_data`. Old job handles are popped and cancelled, a failed cancellation is swallowed, and new jobs are armed and registered.
  - `ReminderScheduler` is a class. Its fields are:
    - the two registry maps;
    - the set of armed jobs, standing in for the job queue;
    - the queue's handle counter.
  - Which cancellations fail is a parameter (`refused`, the handles whose `schedule_removal` raises), because that behaviour belongs to the job-queue library.
- **The clock and parse utilities** (`lifetrack_pro/utils.py`), in `time_utils.dfy`. They are pure functions.
  - Each regular expression is modelled by a pair:
    - a `Form` datatype that spells out the accepted shapes, together with its `Render` printer;
    - a `Scan` recogniser whose contract says that it accepts exactly the rendered strings.
  - `str.strip()` and `str.lower()` are written out character by character.
- **The event store** (`lifetrack_pro/db.py`), in `tables.dfy` and `db.dfy`.
  - `Database` is a class holding the user map and six log tables.
  - Each log table is a sequence of rows in id order, with the next `AUTOINCREMENT` id kept beside the rows.
  - `INSERT`, `UPDATE ... WHERE id=?` and `DELETE ... WHERE user_id=?` are the functions `Insert`, `UpdateAt` and `PurgeTable`.
  - The reads are functions over the tables.
  - The two streak walks are `while true` loops. Termination is proved by a count of the user's rows. The one exception is the water walk with a target of 0 or less. There the measure is the distance to the short day that the precondition supplies.
  - Representations:
    - an instant is whole seconds since the epoch (UTC);
    - a local date is a day number;
    - the time-zone offset is an integer number of minutes, passed in.
  - Local day `d` at offset `off` is the UTC range `[d*86400 - off*60, d*86400 - off*60 + 86400)`.

`wrappers.dfy` holds the `Option` type, which stands for Python's `None`-or-value results and for nullable columns.

Behaviour at the edges of the code:
- **First reminder at the wake time.** The first water reminder is at the wake time when wake and sleep are both 00:00 and there is one reminder. In that case the interval is a whole day, so the reminder lands on the wake time again. The model follows the code here (`Jobs.FirstTriggerAtWakeCase`). `Jobs.FirstTriggerAfterWake` proves that this is the only such case.
- **Minute range after a colon.** In the "N:M" duration form, the minutes after the colon are not range-checked: "2:75" gives 195.
- **Water streak with a target of 0 or less.** Water amounts are not sign-checked where they are read, so a day's total can be negative. With a positive target, every counted day holds one of the user's logs, so the walk ends. With a target of 0 or less, the walk ends at the first day, going back, whose total is below the target. If there is no such day, it goes on until date arithmetic passes the first representable date and raises. The model accepts both cases that return (`Db.Database.WaterCompletionStreak`).
- **Water logs for an unknown user.** `water_logs` is the only log table with a foreign key to `users`, and foreign keys are switched on when connecting. So `add_water` for a user without a row is refused. The model returns `false` and appends nothing.

## Model

| member | source | states |
|---|---|---|
| Jobs.ComputeTriggerTimes | lifetrack_pro/jobs.py:33-47 | The loop that steps `current` by the interval yields exactly `TriggerTimes`: one clock time per reminder, reminder `i` at `(wake + interval*(i+1)) mod 1440`. |
| Jobs.WindowShape | lifetrack_pro/jobs.py:33-40 | The window is `sleep - wake` when sleep is after wake and `1440 - wake` otherwise. It is at least one minute and never passes midnight. There is at least one reminder, and the interval is between 1 and 1440. |
| Jobs.TriggerTimes | lifetrack_pro/jobs.py:39-47 | There is one trigger time per reminder, `max(1, target // max(1, cup))` of them. |
| Jobs.TriggerWithoutWrap | lifetrack_pro/jobs.py:42-47 | A reminder whose offset from wake stays before midnight has minute of the day `wake + offset`, without wrapping. |
| Jobs.TriggerTimesShape | lifetrack_pro/jobs.py:39-47 | There are exactly `max(1, target // max(1, cup))` trigger times. Each is a valid clock time whose minute of the day is `(wake + interval*(i+1)) mod 1440`. |
| Jobs.TriggersInsideWindow | lifetrack_pro/jobs.py:33-47 | When the window holds at least one minute per reminder, every reminder's offset lies in `(0, window]`. When sleep is after wake, every reminder falls strictly after wake and no later than sleep, without wrapping. |
| Jobs.StepsWithinWindow | lifetrack_pro/jobs.py:40-47 | `i+1` steps of `max(1, w // n)` minutes, for `i < n <= w`, stay within `w` minutes. |
| Jobs.FirstTriggerAfterWake | lifetrack_pro/jobs.py:40-45 | The first reminder's clock time differs from the wake time, except in the one case of wake = sleep = 00:00 with a single reminder. |
| Jobs.IntervalBelowDay | lifetrack_pro/jobs.py:33-40 | Outside that case, the interval is shorter than a day. |
| Jobs.FirstTriggerAtWakeCase | lifetrack_pro/jobs.py:33-47 | With wake = sleep = 00:00 and one reminder, the only reminder is at 00:00. |
| Jobs.TriggerTimesExample | lifetrack_pro/jobs.py:33-47 | 07:00 to 22:30 with 2000 ml in 250 ml cups gives window 930, 8 reminders, interval 116, and the times 08:56, 10:52, …, 22:28. |
| Jobs.ReminderScheduler.constructor | lifetrack_pro/jobs.py:21-24 | A fresh registry and queue: no jobs registered or armed, and the handle counter at 0. |
| Jobs.ReminderScheduler.RunDaily | lifetrack_pro/jobs.py:51-58 | Arming adds exactly one new job, under a fresh handle, with the given chat, callback, time, zone and payload. |
| Jobs.ReminderScheduler.Cancel | lifetrack_pro/jobs.py:25-29 | A refused cancellation leaves the queue unchanged. Any other cancellation removes the job, whether or not it was still armed. |
| Jobs.ReminderScheduler.CancelAll | lifetrack_pro/jobs.py:24-29 | After cancelling a popped list, exactly the jobs whose cancellation succeeds are gone. One outcome is produced per job, and it is a failure exactly for the refused handles. |
| Jobs.ReminderScheduler.ScheduleWaterReminders | lifetrack_pro/jobs.py:21-60 | The chat's registered water jobs are always cancelled. With wake or sleep unset, the chat's key is removed and nothing is armed. Otherwise the key is replaced wholesale by one new job per trigger time, each carrying the cup size. Other chats' entries, the summary registry and other chats' armed jobs are untouched. The handle counter moves by the number of jobs armed. The registry invariant is kept. |
| Jobs.ReminderScheduler.ArmWaterJobs | lifetrack_pro/jobs.py:49-59 | The arming loop arms exactly `WaterJobsFor(...)`: job `k` carries trigger time `k`, index `k`, the zone and the cup size, under consecutive fresh handles. |
| Jobs.SummaryTime | lifetrack_pro/jobs.py:73 | Without a sleep time the summary is at 21:00. With one, it is a valid clock time whose minute of the day is the sleep minutes mod 1440. |
| Jobs.ReminderCupSize | lifetrack_pro/jobs.py:87 | A reminder reports the cup size its job carries, and 250 ml when the job carries none. |
| Jobs.WaterJobsCupSize | lifetrack_pro/jobs.py:49-59 | Every water job armed for a chat belongs to that chat, is a water reminder, and reports the chat's cup size. |
| Jobs.ReminderScheduler.RescheduleDailySummary | lifetrack_pro/jobs.py:63-81 | Any prior summary job of the chat is cancelled, unless its cancellation is refused. Exactly one new summary job is armed and registered, at the sleep time if one is set and at 21:00 otherwise. The handle counter moves by one. The water registry is untouched. |
| Jobs.ReconcileTwice | lifetrack_pro/jobs.py:21-60 | Reconciling twice with the same settings registers the same trigger times both times, equal to `TriggerTimes` of those settings. |
| TimeUtils.MinutesToTime | lifetrack_pro/utils.py:70-73 | For every integer, negatives included, the hour is in [0, 23], the minute is in [0, 59], and `hour*60 + minute` is the input mod 1440. |
| TimeUtils.MinutesToTimeInDay | lifetrack_pro/utils.py:70-73 | Within one day, the clock time is `(m // 60, m % 60)`. |
| TimeUtils.MinutesToTimeNegative | lifetrack_pro/utils.py:70-73 | −30 minutes is 23:30, and 1515 minutes is 01:15. |
| TimeUtils.NatToString | lifetrack_pro/utils.py:36 | The decimal text of `n` is a numeral whose value is `n`. It has one digit below 10 and two digits below 100. |
| TimeUtils.Pad2Value | lifetrack_pro/utils.py:36 | `{n:02d}` of `0 <= n < 100` is two digits denoting `n`. |
| TimeUtils.MinutesToHhmm | lifetrack_pro/utils.py:33-36 | For every integer, the text is `{m // 60:02d}`, then ':', then two digits whose value is `m mod 60`. `TimeUtils.MinutesToHhmmShape` and `TimeUtils.ParseTimeRoundTrip` characterise it on a minute of the day. |
| TimeUtils.MinutesToHhmmShape | lifetrack_pro/utils.py:33-36 | For a minute of the day, `minutes_to_hhmm` gives five characters "HH:MM". HH is two digits of value `m // 60 <= 23`, and MM is two digits of value `m % 60`. |
| TimeUtils.ScanClock | lifetrack_pro/utils.py:60 | A recognised text is a well-formed `(\d{1,2}):(\d{2})` form that renders back to exactly that text. |
| TimeUtils.ScanClockComplete | lifetrack_pro/utils.py:60 | Every well-formed clock form is recognised as itself. |
| TimeUtils.ParseTimeHhmm | lifetrack_pro/utils.py:58-67 | A result, when present, is in [0, 1439]. |
| TimeUtils.ParseTimeSound | lifetrack_pro/utils.py:58-67 | An accepted text is, after stripping, a clock form with hour ≤ 23 and minute ≤ 59, and the result is `hour*60 + minute`. |
| TimeUtils.ParseTimeAccepts | lifetrack_pro/utils.py:58-67 | A clock form in range, surrounded by any white space, is accepted with value `hour*60 + minute`. |
| TimeUtils.ParseTimeRejectsRange | lifetrack_pro/utils.py:63-66 | A clock form with hour > 23 or minute > 59 gives `None`. |
| TimeUtils.ParseTimeRoundTrip | lifetrack_pro/utils.py:33-36 | For every `m` in [0, 1439], parsing `minutes_to_hhmm(m)` gives back `m`. |
| TimeUtils.ParseTimeExampleAccepted | lifetrack_pro/utils.py:58-67 | " 7:05 " gives 425. |
| TimeUtils.ParseTimeExampleHourOutOfRange | lifetrack_pro/utils.py:65-66 | "24:00" gives `None`. |
| TimeUtils.ParseTimeExampleMinuteOutOfRange | lifetrack_pro/utils.py:65-66 | "07:60" gives `None`. |
| TimeUtils.Strip | lifetrack_pro/utils.py:40 | The stripped text is no longer than the input and neither starts nor ends with white space. |
| TimeUtils.StripPadded | lifetrack_pro/utils.py:40 | Stripping removes exactly the white space around a text that neither starts nor ends with white space. |
| TimeUtils.ScanDuration | lifetrack_pro/utils.py:42-54 | A recognised text is a well-formed duration shape (`\d+`, `(\d+)h`, `(\d+)h\s*(\d+)m`, `(\d+):(\d{1,2})` or `(\d+)m`) that renders back to exactly that text. |
| TimeUtils.ScanDurationComplete | lifetrack_pro/utils.py:42-54 | Every well-formed duration shape is recognised as itself. |
| TimeUtils.ParseDurationToMinutes | lifetrack_pro/utils.py:39-55 | A result, when present, is never negative. |
| TimeUtils.ParseDurationSound | lifetrack_pro/utils.py:39-55 | An accepted text is, stripped and lower-cased, one of the duration shapes, and the result is that shape's value. |
| TimeUtils.ParseDurationAccepts | lifetrack_pro/utils.py:39-55 | A duration shape, in any mix of case and with any surrounding white space, is accepted with its value: N, 60N, 60N+M, 60N+M, or N. |
| TimeUtils.ParseDurationExamplePlain | lifetrack_pro/utils.py:42-43 | "90" gives 90. |
| TimeUtils.ParseDurationExampleHoursMinutes | lifetrack_pro/utils.py:44-48 | " 1H 30m " gives 90. |
| TimeUtils.ParseDurationExampleColon | lifetrack_pro/utils.py:49-51 | "2:75" gives 195; the minutes are not range-checked. |
| TimeUtils.ParseDurationExampleMinutes | lifetrack_pro/utils.py:52-54 | "45m" gives 45. |
| Tables.EmptyTable | lifetrack_pro/db.py:18-24 | A new table has no rows, its first id is 1, and it is valid. |
| Tables.Insert | lifetrack_pro/db.py:129-134 | An insert appends exactly one row, under an id above every existing id, and keeps the earlier rows and the table's validity. |
| Tables.UpdateAt | lifetrack_pro/db.py:209-212 | `UPDATE ... WHERE id=?` changes only the columns of that row. The row's id and owner, every other row and the next id stay as they were. |
| Tables.PurgeTable | lifetrack_pro/db.py:118-126 | `DELETE ... WHERE user_id=?` keeps the table valid and does not reuse ids. |
| Tables.PurgeClears | lifetrack_pro/db.py:120-125 | After a purge, the user owns no rows. |
| Tables.PurgeKeepsOthers | lifetrack_pro/db.py:120-125 | After a purge, every other user owns exactly the rows, in order, that they owned before. |
| Tables.PurgeSubset | lifetrack_pro/db.py:120-125 | Every surviving row was in the table before and belongs to another user. |
| Tables.LastIndex | lifetrack_pro/db.py:196 | `ORDER BY id DESC LIMIT 1`: the position found satisfies the filter and no later row does. With no position, no row satisfies it. |
| Tables.SumZero | lifetrack_pro/db.py:141 | `COALESCE(SUM(...), 0)` is 0 when no row contributes. |
| Db.ApplySettingsColumns | lifetrack_pro/db.py:105-116 | A settings update sets exactly the columns it names and keeps the others. An empty update changes nothing. |
| Db.WithUser | lifetrack_pro/db.py:88-93 | After the upsert, the user exists. An existing row is kept unchanged, and a new row has the defaults (4000 ml, 250 ml, no wake, no sleep, the given zone). No other user changes. |
| Db.WithUserIdempotent | lifetrack_pro/db.py:88-93 | Upserting twice equals upserting once; the second zone is ignored. |
| Db.LocalDateWindow | lifetrack_pro/db.py:138-139 | Every instant lies in the UTC window of its own local day and of no other. |
| Db.WaterSumAfterInsert | lifetrack_pro/db.py:129-150 | Appending a water log raises a window's total by its amount when it is the user's log and lies inside the window. Otherwise the total is unchanged. |
| Db.WaterSumEmpty | lifetrack_pro/db.py:141-150 | With none of the user's logs inside the window, the total is 0. |
| Db.PurgedWaterZero | lifetrack_pro/db.py:118-120 | After the user's water logs are deleted, each of the user's window totals is 0. |
| Db.WaterSumSupport | lifetrack_pro/db.py:141-150 | A window total is 0 without a log of the user inside the window, and non-zero only with one. |
| Db.WaterSumOwned | lifetrack_pro/db.py:136-150 | A day's total is non-zero only for a user who owns water logs. |
| Db.WaterDayHasLog | lifetrack_pro/db.py:305-322 | A day with a non-zero total holds one of the user's logs. |
| Db.StepBackLeavesFewerLogs | lifetrack_pro/db.py:314-319 | When a day's total is non-zero, the user has fewer logs up to the end of the previous day than up to the end of that day. |
| Db.StreakWithinLogs | lifetrack_pro/db.py:305-322 | A streak bounded by the user's logs up to today is at most the number of the user's water logs. |
| Db.FindDay | lifetrack_pro/db.py:245 | The lookup of `(user, date)` finds a row with that key, or finds none when no row has it. |
| Db.FindDayUnique | lifetrack_pro/db.py:32 | Under `UNIQUE(user_id, date)`, the row found is the only row with that key. |
| Db.UpsertFlag | lifetrack_pro/db.py:153-166 | Validity is kept. Without a row for `(user, date)`, one row with the next id and the new value is appended. With one, the row count and next id stay, and a row with that key gets the new value and timestamp under its old id. Rows with other keys are unchanged. |
| Db.UpsertFlagOnePerDay | lifetrack_pro/db.py:153-166 | `ON CONFLICT(user_id, date) DO UPDATE` keeps at most one row per key. |
| Db.UpsertFlagLookup | lifetrack_pro/db.py:153-166 | After an upsert, the key holds the new value and timestamp, and every other key holds what it held before. |
| Db.FlagDayHasRow | lifetrack_pro/db.py:285-303 | A day that has a row uses up one of the user's rows dated up to it. |
| Db.ActivitiesOnShape | lifetrack_pro/db.py:176-183 | The list has one entry per row of the user dated that day. Each entry is the type and details (or "") of such a row. |
| Db.ActivitiesAfterInsert | lifetrack_pro/db.py:169-183 | A new activity comes last in its own day's list, with missing details shown as "", and leaves every other day's list unchanged. |
| Db.ScreenSumAfterInsert | lifetrack_pro/db.py:223-228 | Appending screen time raises that user's total for that date by its minutes and leaves other totals unchanged. |
| Db.SleepDuration | lifetrack_pro/db.py:204-208 | The duration is never negative. It is 0 when the start is unreadable or after the wake. Otherwise it is the whole minutes from start to wake, rounded down. |
| Db.Database.constructor | lifetrack_pro/db.py:6-68 | The schema on an empty database: no users, and every table is empty, valid and starts its ids at 1. |
| Db.Database.UpsertUser | lifetrack_pro/db.py:88-93 | The user map becomes `WithUser` of the old one. |
| Db.Database.UpdateUserSettings | lifetrack_pro/db.py:105-116 | An empty call, or a missing user, changes nothing. Otherwise only that user's named columns change. |
| Db.Database.DeleteAllUserData | lifetrack_pro/db.py:118-126 | Each of the six log tables loses exactly the user's rows, and the user row stays. Every water total of the user is 0 afterwards. Validity, including one row per key, is kept. |
| Db.Database.AddWater | lifetrack_pro/db.py:129-134 | Succeeds exactly when the user has a row, as the foreign key of `water_logs` (line 23, enforced from line 78) demands. On success it appends one water log, and on failure nothing changes. Validity is kept either way. |
| Db.Database.WaterTotalForDate | lifetrack_pro/db.py:136-150 | A non-zero day total needs a water log of the user. `Db.Database.WaterTotalSupport`, `Db.WaterSumAfterInsert` and `Db.WaterSumEmpty` characterise the total further. |
| Db.Database.WaterTotalSupport | lifetrack_pro/db.py:136-150 | A day's total is 0 when the user logged nothing inside the day's UTC window, and non-zero only when they logged something there. |
| Db.Database.ActivitiesForDate | lifetrack_pro/db.py:176-183 | One entry per activity of the user on that date, each the type and details (or "") of such a row. |
| Db.Database.SetExercise | lifetrack_pro/db.py:153-158 | Upserts the answer for `(user, date)` and keeps one row per key. |
| Db.Database.SetRetention | lifetrack_pro/db.py:161-166 | Upserts the answer for `(user, date)` and keeps one row per key. |
| Db.Database.AddActivity | lifetrack_pro/db.py:169-174 | Appends one activity, with details possibly missing, and keeps validity. |
| Db.Database.LogSleepStart | lifetrack_pro/db.py:186-191 | Appends an open row holding only the start. |
| Db.Database.LogWake | lifetrack_pro/db.py:193-220 | If the user has an open row, the one with the highest id gets the wake instant, the duration and the new date, and no row is added. Otherwise a row with only the wake is appended. |
| Db.Database.AddScreenTime | lifetrack_pro/db.py:223-228 | Appends one screen-time log and keeps validity. |
| Db.Database.DaySummaryFor | lifetrack_pro/db.py:231-282 | The summary states: <br>• the target: the user's, or 4000 without a user row; <br>• exercise and retention: true exactly when a row for that day says yes; <br>• the activities in insertion order; <br>• the sleep minutes: none exactly when no completed row for that day exists, else the duration of the completed row with the highest id; <br>• the day's screen-time sum. |
| Db.Database.ComputeBooleanStreak | lifetrack_pro/db.py:285-303 | Every day in `(today - streak, today]` has a row whose value is `expected`, and day `today - streak` does not. The walk ends, and the streak is at most the number of the user's rows in that table. |
| Db.Database.WaterCompletionStreak | lifetrack_pro/db.py:305-322 | Every day in `(today - streak, today]` reaches the target, and day `today - streak` does not. The walk ends whenever the target is positive or some day up to today falls short of it. With a positive target, the streak is at most the number of the user's water logs. |
| Db.PurgeOnePerDay | lifetrack_pro/db.py:121-122 | Deleting a user's rows keeps one row per `(user, date)`. |
| Db.FlagAnswer | lifetrack_pro/db.py:243-258 | Under one row per key, the looked-up answer is true exactly when some row for that key says yes. |
| Db.SleepThenWake | lifetrack_pro/db.py:186-220 | A start followed by a wake closes the row the start opened: its start, wake, duration and wake date are recorded, and no other row is added. |

## Left out

- The time-zone and clock helpers `get_tz`, `tz_offset_minutes`, `local_date_str` and `now_utc` are left out: they call pytz and the wall clock. The offset, the local date and every instant are parameters instead.
- `ml_to_liters_str` is left out: it formats a floating-point number.
- `get_user` is left out: it only reads a row into a dictionary. The model's reads use the user map directly.
- `send_daily_summary` and the message text of `send_water_reminder` are left out: they are Telegram calls. The cup size a reminder reports is modelled (`Jobs.ReminderCupSize`).
- The model assumes that the job queue's `run_daily` accepts its calls as written, including the `tzinfo` keyword (lifetrack_pro/jobs.py:51-57 and 74-79), and always arms a job. The job-queue library is not part of this model, so a call it rejects is not modelled.
- Firing jobs, async execution and concurrency between reconciliations are left out. A job is an element of the armed set, and it is never fired.
- SQL storage details are left out:
  - timestamps are compared as ISO-8601 strings, including the difference between naive and aware datetimes;
  - dates are computed with `timedelta`.
  Instants are whole seconds, so microseconds are not modelled either.
- `log_wake` can subtract an aware datetime from a naive one, which raises; that exception is not modelled. An unreadable or missing start is modelled: it counts as the wake itself and gives duration 0.
- `update_user_settings` with a column name that is not a user column is not modelled (SQLite rejects it). Setting wake or sleep back to NULL is not modelled either: an update carries only values to set.
- Digits and case are ASCII only. Python's `\d` and `int()` also accept other Unicode decimal digits, and `str.lower()` folds non-ASCII letters.
- The water-reminder job names (`water_reminder_<chat>_<idx>`) are represented by the index in the callback. The zone object is an opaque string.
- Db.Database.WaterCompletionStreak: requires a positive target, or some day up to today whose total is below the target. When neither holds, the source steps back until `timedelta` arithmetic passes 0001-01-01 and raises `OverflowError`. The model has no lower date bound, so that case is excluded.
- Dates are unbounded day numbers and instants are unbounded integers. The range limits of Python's `datetime` (years 1 to 9999) and the `OverflowError` past them are not modelled.

