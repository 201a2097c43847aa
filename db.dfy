/**
 * The event store (`lifetrack_pro/db.py`): a user table and six log tables.
 *
 * Instants are whole seconds since the epoch (UTC), local dates are day
 * numbers, and a time-zone offset is a number of minutes east of UTC. The
 * local day `d` at offset `off` is the instant range
 * `[d * 86400 - off * 60, d * 86400 - off * 60 + 86400)`.
 */
module Db {
  import opened Wrappers
  import opened Tables

  const DefaultWaterTargetMl: int := 4000
  const DefaultCupSizeMl: int := 250
  const SecondsPerDay: int := 86400

  // ------------------------------------------------------------ records

  /** A row of `users`, keyed by the user id the map holds it under. */
  datatype User = User(dailyWaterTargetMl: int, cupSizeMl: int,
                       wakeTimeMinutes: Option<int>, sleepTimeMinutes: Option<int>, tz: string)

  /** The column defaults of `users`; only the zone is given by the insert. */
  function NewUser(tz: string): User {
    User(DefaultWaterTargetMl, DefaultCupSizeMl, None, None, tz)
  }

  /** The keyword arguments of `update_user_settings`: `Some` for each column named. */
  datatype SettingsUpdate = SettingsUpdate(dailyWaterTargetMl: Option<int>, cupSizeMl: Option<int>,
                                           wakeTimeMinutes: Option<int>, sleepTimeMinutes: Option<int>,
                                           tz: Option<string>)

  const NoSettings: SettingsUpdate := SettingsUpdate(None, None, None, None, None)

  function ApplySettings(user: User, update: SettingsUpdate): User {
    User(update.dailyWaterTargetMl.GetOr(user.dailyWaterTargetMl),
         update.cupSizeMl.GetOr(user.cupSizeMl),
         if update.wakeTimeMinutes.Some? then update.wakeTimeMinutes else user.wakeTimeMinutes,
         if update.sleepTimeMinutes.Some? then update.sleepTimeMinutes else user.sleepTimeMinutes,
         update.tz.GetOr(user.tz))
  }

  /** An update sets exactly the columns it names; an empty one changes nothing. */
  lemma ApplySettingsColumns(user: User, update: SettingsUpdate)
    ensures var r := ApplySettings(user, update);
            && (update.dailyWaterTargetMl.Some? ==> r.dailyWaterTargetMl == update.dailyWaterTargetMl.value)
            && (update.dailyWaterTargetMl.None? ==> r.dailyWaterTargetMl == user.dailyWaterTargetMl)
            && (update.cupSizeMl.Some? ==> r.cupSizeMl == update.cupSizeMl.value)
            && (update.cupSizeMl.None? ==> r.cupSizeMl == user.cupSizeMl)
            && (update.wakeTimeMinutes.Some? ==> r.wakeTimeMinutes == update.wakeTimeMinutes)
            && (update.wakeTimeMinutes.None? ==> r.wakeTimeMinutes == user.wakeTimeMinutes)
            && (update.sleepTimeMinutes.Some? ==> r.sleepTimeMinutes == update.sleepTimeMinutes)
            && (update.sleepTimeMinutes.None? ==> r.sleepTimeMinutes == user.sleepTimeMinutes)
            && (update.tz.Some? ==> r.tz == update.tz.value)
            && (update.tz.None? ==> r.tz == user.tz)
    ensures ApplySettings(user, NoSettings) == user
  {
  }

  /** `INSERT ... ON CONFLICT(user_id) DO NOTHING` on the user table. */
  function WithUser(users: map<int, User>, id: int, tz: string): (r: map<int, User>)
    ensures id in r && r[id] == (if id in users then users[id] else NewUser(tz))
    ensures forall k :: k in users ==> k in r && r[k] == users[k]
    ensures forall k :: k in r ==> k in users || k == id
  {
    if id in users then users else users[id := NewUser(tz)]
  }

  /** Upserting a user twice is upserting once: the second zone is ignored. */
  lemma WithUserIdempotent(users: map<int, User>, id: int, tz: string, tz2: string)
    ensures WithUser(WithUser(users, id, tz), id, tz2) == WithUser(users, id, tz)
  {
  }

  datatype WaterLog = WaterLog(amountMl: int, tsUtc: int)
  /** A row of `exercise_logs` or `retention_logs`: the local date and the yes/no answer. */
  datatype DayFlag = DayFlag(date: int, value: bool, tsUtc: int)
  datatype Activity = Activity(date: int, activityType: string, details: Option<string>, tsUtc: int)
  datatype SleepLog = SleepLog(date: int, sleepStartUtc: Option<int>, wakeUtc: Option<int>,
                               durationMinutes: Option<int>)
  datatype ScreenTime = ScreenTime(date: int, minutes: int, tsUtc: int)

  /** The dictionary `get_day_summary` returns. */
  datatype DaySummary = DaySummary(waterTargetMl: int, didExercise: bool, didRetain: bool,
                                   activities: seq<(string, string)>, sleepMinutes: Option<int>,
                                   screenTimeMinutes: int)

  /** The two tables `compute_boolean_streak` is called on. */
  datatype FlagTable = ExerciseLogs | RetentionLogs

  // ------------------------------------------------------------ local days

  /** The first instant of local day `date` at `tzOffsetMinutes`. */
  function DayStart(date: int, tzOffsetMinutes: int): int {
    date * SecondsPerDay - tzOffsetMinutes * 60
  }

  /** The local day an instant falls on. */
  function LocalDate(ts: int, tzOffsetMinutes: int): int {
    (ts + tzOffsetMinutes * 60) / SecondsPerDay
  }

  /** Every instant lies in the window of its own local day, and of no other. */
  lemma LocalDateWindow(ts: int, tzOffsetMinutes: int, date: int)
    ensures DayStart(LocalDate(ts, tzOffsetMinutes), tzOffsetMinutes) <= ts
            < DayStart(LocalDate(ts, tzOffsetMinutes), tzOffsetMinutes) + SecondsPerDay
    ensures DayStart(date, tzOffsetMinutes) <= ts < DayStart(date, tzOffsetMinutes) + SecondsPerDay
            ==> date == LocalDate(ts, tzOffsetMinutes)
  {
  }

  /** The day before ends where the day begins. */
  lemma DayStartPrevious(date: int, tzOffsetMinutes: int)
    ensures DayStart(date - 1, tzOffsetMinutes) + SecondsPerDay == DayStart(date, tzOffsetMinutes)
  {
  }

  // ------------------------------------------------------------ water

  /** The amount a water row adds to a total over `[from, to)` for `user`. */
  function WaterIn(user: int, from: int, to: int): Row<WaterLog> -> int {
    (r: Row<WaterLog>) => if r.user == user && from <= r.data.tsUtc < to then r.data.amountMl else 0
  }

  function WaterSum(rows: seq<Row<WaterLog>>, user: int, from: int, to: int): int {
    Sum(rows, WaterIn(user, from, to))
  }

  /** Appending a log raises a window's total by its amount if it is the user's and inside, else not at all. */
  lemma WaterSumAfterInsert(t: Table<WaterLog>, user: int, amountMl: int, ts: int, who: int, from: int, to: int)
    ensures WaterSum(Insert(t, user, WaterLog(amountMl, ts)).rows, who, from, to)
            == WaterSum(t.rows, who, from, to) + (if who == user && from <= ts < to then amountMl else 0)
  {
    SumAppend(t.rows, Row(t.nextId, user, WaterLog(amountMl, ts)), WaterIn(who, from, to));
  }

  /** Whether a water row is `user`'s and logged inside `[from, to)`. */
  predicate LogInWindow(r: Row<WaterLog>, user: int, from: int, to: int) {
    r.user == user && from <= r.data.tsUtc < to
  }

  /** With no log of the user inside the window the total is 0. */
  lemma WaterSumEmpty(rows: seq<Row<WaterLog>>, user: int, from: int, to: int)
    requires forall j :: 0 <= j < |rows| ==> !LogInWindow(rows[j], user, from, to)
    ensures WaterSum(rows, user, from, to) == 0
  {
    SumZero(rows, WaterIn(user, from, to));
  }

  /** A window total is 0 without a log of the user inside it, and non-zero only with one. */
  lemma WaterSumSupport(rows: seq<Row<WaterLog>>, user: int, from: int, to: int)
    ensures (forall j :: 0 <= j < |rows| ==> !LogInWindow(rows[j], user, from, to)) ==> WaterSum(rows, user, from, to) == 0
    ensures WaterSum(rows, user, from, to) != 0 ==> exists j :: 0 <= j < |rows| && LogInWindow(rows[j], user, from, to)
  {
    if WaterSum(rows, user, from, to) != 0 {
      var i := SumWitness(rows, WaterIn(user, from, to));
      assert LogInWindow(rows[i], user, from, to);
    } else if forall j :: 0 <= j < |rows| ==> !LogInWindow(rows[j], user, from, to) {
      WaterSumEmpty(rows, user, from, to);
    }
  }

  /** After a purge of `user` every window total of `user` is 0. */
  lemma PurgedWaterZero(rows: seq<Row<WaterLog>>, user: int)
    ensures forall from, to :: WaterSum(Purge(rows, user), user, from, to) == 0
  {
    PurgeSubset(rows, user);
    var rest := Purge(rows, user);
    assert forall j :: 0 <= j < |rest| ==> rest[j] in rest;
    forall from, to ensures WaterSum(rest, user, from, to) == 0 {
      WaterSumEmpty(rest, user, from, to);
    }
  }

  /** The filter "the user's logs before `t`". */
  function LoggedBefore(user: int, t: int): Row<WaterLog> -> bool {
    (r: Row<WaterLog>) => r.user == user && r.data.tsUtc < t
  }

  /** A day with a non-zero total holds a log of the user: the count of logs before it is smaller than before its end. */
  lemma WaterDayHasLog(rows: seq<Row<WaterLog>>, user: int, from: int)
    requires WaterSum(rows, user, from, from + SecondsPerDay) != 0
    ensures Count(rows, LoggedBefore(user, from)) < Count(rows, LoggedBefore(user, from + SecondsPerDay))
  {
    var i := SumWitness(rows, WaterIn(user, from, from + SecondsPerDay));
    CountGrows(rows, LoggedBefore(user, from), LoggedBefore(user, from + SecondsPerDay), i);
  }

  /** How many of the user's logs fall before the end of local day `date`. */
  function LogsThrough(rows: seq<Row<WaterLog>>, user: int, date: int, tzOffsetMinutes: int): nat {
    Count(rows, LoggedBefore(user, DayStart(date, tzOffsetMinutes) + SecondsPerDay))
  }

  /** A day with a non-zero total holds a log, so stepping back one day leaves fewer logs behind. */
  lemma StepBackLeavesFewerLogs(rows: seq<Row<WaterLog>>, user: int, date: int, tzOffsetMinutes: int)
    requires WaterSum(rows, user, DayStart(date, tzOffsetMinutes), DayStart(date, tzOffsetMinutes) + SecondsPerDay) != 0
    ensures LogsThrough(rows, user, date - 1, tzOffsetMinutes) < LogsThrough(rows, user, date, tzOffsetMinutes)
  {
    WaterDayHasLog(rows, user, DayStart(date, tzOffsetMinutes));
    DayStartPrevious(date, tzOffsetMinutes);
  }

  /** A day's total is non-zero only for a user who owns water logs. */
  lemma WaterSumOwned(rows: seq<Row<WaterLog>>, user: int, from: int)
    ensures WaterSum(rows, user, from, from + SecondsPerDay) != 0 ==> |OwnedBy(rows, user)| > 0
  {
    if WaterSum(rows, user, from, from + SecondsPerDay) != 0 {
      WaterDayHasLog(rows, user, from);
      CountOwned(rows, LoggedBefore(user, from + SecondsPerDay), user);
    }
  }

  // ------------------------------------------------------------ exercise and retention

  /** `UNIQUE(user_id, date)`. */
  ghost predicate OnePerDay(rows: seq<Row<DayFlag>>) {
    forall i, j :: 0 <= i < j < |rows| ==> !(rows[i].user == rows[j].user && rows[i].data.date == rows[j].data.date)
  }

  /** `... WHERE user_id=? AND date=?`: the position of the row for that key, if any. */
  function FindDay(rows: seq<Row<DayFlag>>, user: int, date: int): (r: Option<nat>)
    ensures r.Some? ==> r.value < |rows| && rows[r.value].user == user && rows[r.value].data.date == date
    ensures r.None? ==> forall j :: 0 <= j < |rows| ==> !(rows[j].user == user && rows[j].data.date == date)
  {
    LastIndex(rows, (r: Row<DayFlag>) => r.user == user && r.data.date == date)
  }

  /** Under `UNIQUE(user_id, date)` the row found is the only row with that key. */
  lemma FindDayUnique(rows: seq<Row<DayFlag>>, user: int, date: int, i: nat)
    requires OnePerDay(rows)
    requires i < |rows| && rows[i].user == user && rows[i].data.date == date
    ensures FindDay(rows, user, date) == Some(i)
  {
  }

  /** The row stored for a key, if any. */
  function FlagAt(rows: seq<Row<DayFlag>>, user: int, date: int): Option<DayFlag> {
    match FindDay(rows, user, date)
    case Some(i) => Some(rows[i].data)
    case None => None
  }

  /** `INSERT ... ON CONFLICT(user_id, date) DO UPDATE SET <value>, ts_utc`. */
  function UpsertFlag(t: Table<DayFlag>, user: int, date: int, value: bool, ts: int): (r: Table<DayFlag>)
    ensures TableValid(t) ==> TableValid(r)
    ensures (forall j :: 0 <= j < |t.rows| ==> !(t.rows[j].user == user && t.rows[j].data.date == date)) ==>
              r.rows == t.rows + [Row(t.nextId, user, DayFlag(date, value, ts))] && r.nextId == t.nextId + 1
    ensures (exists j :: 0 <= j < |t.rows| && t.rows[j].user == user && t.rows[j].data.date == date) ==>
              |r.rows| == |t.rows| && r.nextId == t.nextId &&
              exists i :: 0 <= i < |t.rows| && t.rows[i].user == user && t.rows[i].data.date == date
                && r.rows[i] == Row(t.rows[i].id, user, DayFlag(date, value, ts))
    ensures forall j :: 0 <= j < |t.rows| && !(t.rows[j].user == user && t.rows[j].data.date == date) ==>
              r.rows[j] == t.rows[j]
  {
    match FindDay(t.rows, user, date)
    case Some(i) => UpdateAt(t, i, DayFlag(date, value, ts))
    case None => Insert(t, user, DayFlag(date, value, ts))
  }

  /** An upsert keeps one row per key. */
  lemma UpsertFlagOnePerDay(t: Table<DayFlag>, user: int, date: int, value: bool, ts: int)
    requires OnePerDay(t.rows)
    ensures OnePerDay(UpsertFlag(t, user, date, value, ts).rows)
  {
    var t' := UpsertFlag(t, user, date, value, ts);
    match FindDay(t.rows, user, date)
    case Some(i) =>
      assert forall j :: 0 <= j < |t.rows| ==>
        t'.rows[j].user == t.rows[j].user && t'.rows[j].data.date == t.rows[j].data.date;
    case None =>
  }

  /**
   * After an upsert the key holds the new value and timestamp, in one row, and
   * every other key holds what it held before.
   */
  lemma UpsertFlagLookup(t: Table<DayFlag>, user: int, date: int, value: bool, ts: int, user2: int, date2: int)
    requires OnePerDay(t.rows)
    ensures FlagAt(UpsertFlag(t, user, date, value, ts).rows, user, date) == Some(DayFlag(date, value, ts))
    ensures (user2, date2) != (user, date) ==>
              FlagAt(UpsertFlag(t, user, date, value, ts).rows, user2, date2) == FlagAt(t.rows, user2, date2)
  {
    var t' := UpsertFlag(t, user, date, value, ts);
    UpsertFlagOnePerDay(t, user, date, value, ts);
    var k := match FindDay(t.rows, user, date) case Some(i) => i case None => |t.rows|;
    FindDayUnique(t'.rows, user, date, k);
    if (user2, date2) != (user, date) {
      match FindDay(t.rows, user2, date2)
      case Some(j) =>
        FindDayUnique(t'.rows, user2, date2, j);
      case None =>
    }
  }

  /** The filter "the user's rows dated up to `date`". */
  function DatedUpTo(user: int, date: int): Row<DayFlag> -> bool {
    (r: Row<DayFlag>) => r.user == user && r.data.date <= date
  }

  /** A day that has a row: fewer of the user's rows are dated before it than up to it. */
  lemma FlagDayHasRow(rows: seq<Row<DayFlag>>, user: int, date: int)
    requires FindDay(rows, user, date).Some?
    ensures Count(rows, DatedUpTo(user, date - 1)) < Count(rows, DatedUpTo(user, date))
  {
    CountGrows(rows, DatedUpTo(user, date - 1), DatedUpTo(user, date), FindDay(rows, user, date).value);
  }

  /** Whether `date` has a row whose value, as 1 or 0, is `expected`. */
  predicate FlagMatches(rows: seq<Row<DayFlag>>, user: int, date: int, expected: int) {
    match FindDay(rows, user, date)
    case Some(i) => (if rows[i].data.value then 1 else 0) == expected
    case None => false
  }

  // ------------------------------------------------------------ activities, sleep, screen time

  /** `SELECT activity_type, COALESCE(details, '') ... ORDER BY id ASC`. */
  function ActivitiesOn(rows: seq<Row<Activity>>, user: int, date: int): seq<(string, string)>
    decreases |rows|
  {
    if rows == [] then []
    else
      var r := rows[|rows| - 1];
      ActivitiesOn(rows[..|rows| - 1], user, date)
        + (if IsActivityOn(r, user, date) then [ActivityEntry(r)] else [])
  }

  /** Whether an activity row is `user`'s and dated `date`. */
  predicate IsActivityOn(r: Row<Activity>, user: int, date: int) {
    r.user == user && r.data.date == date
  }

  /** The pair a listed activity row yields: its type and its details, or "". */
  function ActivityEntry(r: Row<Activity>): (string, string) {
    (r.data.activityType, r.data.details.GetOr(""))
  }

  /** The filter "the user's activities on `date`". */
  function ActivityOn(user: int, date: int): Row<Activity> -> bool {
    (r: Row<Activity>) => IsActivityOn(r, user, date)
  }

  /** Whether `e` is the entry of some activity row of `user` dated `date`. */
  predicate EntryOfRowOn(e: (string, string), rows: seq<Row<Activity>>, user: int, date: int) {
    exists j :: 0 <= j < |rows| && IsActivityOn(rows[j], user, date) && e == ActivityEntry(rows[j])
  }

  /** The list holds one entry per matching row, each made from such a row. */
  lemma {:induction false} ActivitiesOnShape(rows: seq<Row<Activity>>, user: int, date: int)
    ensures |ActivitiesOn(rows, user, date)| == Count(rows, ActivityOn(user, date))
    ensures forall k :: 0 <= k < |ActivitiesOn(rows, user, date)| ==>
              EntryOfRowOn(ActivitiesOn(rows, user, date)[k], rows, user, date)
    decreases |rows|
  {
    if rows != [] {
      var prefix := rows[..|rows| - 1];
      ActivitiesOnShape(prefix, user, date);
      var head := ActivitiesOn(prefix, user, date);
      var last := rows[|rows| - 1];
      var all := ActivitiesOn(rows, user, date);
      assert all == head + (if IsActivityOn(last, user, date) then [ActivityEntry(last)] else []);
      forall k | 0 <= k < |all|
        ensures EntryOfRowOn(all[k], rows, user, date)
      {
        if k < |head| {
          assert EntryOfRowOn(head[k], prefix, user, date);
          var j :| 0 <= j < |prefix| && IsActivityOn(prefix[j], user, date) && head[k] == ActivityEntry(prefix[j]);
          assert all[k] == head[k] && rows[j] == prefix[j];
        } else {
          assert IsActivityOn(last, user, date) && all[k] == ActivityEntry(last);
        }
      }
    }
  }

  /** A new activity comes last in its own day's list and leaves other days' lists alone. */
  lemma ActivitiesAfterInsert(t: Table<Activity>, user: int, date: int, activityType: string, details: Option<string>,
                              ts: int, who: int, day: int)
    ensures ActivitiesOn(Insert(t, user, Activity(date, activityType, details, ts)).rows, who, day)
            == ActivitiesOn(t.rows, who, day)
               + (if who == user && day == date then [(activityType, details.GetOr(""))] else [])
  {
    var rows' := Insert(t, user, Activity(date, activityType, details, ts)).rows;
    assert rows'[..|rows'| - 1] == t.rows;
  }

  /** The minutes a screen-time row adds to `user`'s total for `date`. */
  function ScreenOn(user: int, date: int): Row<ScreenTime> -> int {
    (r: Row<ScreenTime>) => if r.user == user && r.data.date == date then r.data.minutes else 0
  }

  function ScreenSum(rows: seq<Row<ScreenTime>>, user: int, date: int): int {
    Sum(rows, ScreenOn(user, date))
  }

  lemma ScreenSumAfterInsert(t: Table<ScreenTime>, user: int, date: int, minutes: int, ts: int, who: int, day: int)
    ensures ScreenSum(Insert(t, user, ScreenTime(date, minutes, ts)).rows, who, day)
            == ScreenSum(t.rows, who, day) + (if who == user && day == date then minutes else 0)
  {
    SumAppend(t.rows, Row(t.nextId, user, ScreenTime(date, minutes, ts)), ScreenOn(who, day));
  }

  /** Whether a sleep row is `user`'s and still waits for its wake time. */
  function OpenFor(user: int): Row<SleepLog> -> bool {
    (r: Row<SleepLog>) => r.user == user && r.data.wakeUtc.None?
  }

  /** Whether a sleep row is `user`'s, dated `date`, and has a duration. */
  function CompletedOn(user: int, date: int): Row<SleepLog> -> bool {
    (r: Row<SleepLog>) => r.user == user && r.data.date == date && r.data.durationMinutes.Some?
  }

  /**
   * The minutes `log_wake` records: whole minutes from the start, floored,
   * never negative; a row without a start time counts from the wake itself.
   */
  function SleepDuration(start: Option<int>, wake: int): (d: int)
    ensures d >= 0
    ensures start.None? || wake < start.value ==> d == 0
    ensures start.Some? && start.value <= wake ==> d * 60 <= wake - start.value < d * 60 + 60
  {
    match start
    case None => 0
    case Some(s) => if (wake - s) / 60 < 0 then 0 else (wake - s) / 60
  }

  // ------------------------------------------------------------ the store

  class Database {
    var users: map<int, User>
    var water: Table<WaterLog>
    var exercise: Table<DayFlag>
    var retention: Table<DayFlag>
    var activities: Table<Activity>
    var sleep: Table<SleepLog>
    var screenTime: Table<ScreenTime>

    /** Every table keeps ids ascending; exercise and retention keep one row per (user, date). */
    ghost predicate Valid()
      reads this
    {
      && TableValid(water) && TableValid(exercise) && TableValid(retention)
      && TableValid(activities) && TableValid(sleep) && TableValid(screenTime)
      && OnePerDay(exercise.rows) && OnePerDay(retention.rows)
    }

    /** `connect`: the schema on an empty database. */
    constructor ()
      ensures Valid()
      ensures users == map[]
      ensures water.rows == [] && exercise.rows == [] && retention.rows == []
      ensures activities.rows == [] && sleep.rows == [] && screenTime.rows == []
      ensures water.nextId == 1 && exercise.nextId == 1 && retention.nextId == 1
      ensures activities.nextId == 1 && sleep.nextId == 1 && screenTime.nextId == 1
    {
      users := map[];
      water, exercise, retention := EmptyTable(), EmptyTable(), EmptyTable();
      activities, sleep, screenTime := EmptyTable(), EmptyTable(), EmptyTable();
    }

    // ---------------------------------------------------------- users

    /** `upsert_user`: create the user with the defaults unless a row exists. */
    method UpsertUser(id: int, tz: string)
      modifies this`users
      ensures users == WithUser(old(users), id, tz)
    {
      if id !in users {
        users := users[id := NewUser(tz)];
      }
    }

    /** `update_user_settings`: an empty call returns at once; otherwise the named columns of an existing row change. */
    method UpdateUserSettings(id: int, update: SettingsUpdate)
      modifies this`users
      ensures update == NoSettings || id !in old(users) ==> users == old(users)
      ensures update != NoSettings && id in old(users) ==> users == old(users)[id := ApplySettings(old(users)[id], update)]
    {
      if update == NoSettings {
        return;
      }
      if id in users {
        users := users[id := ApplySettings(users[id], update)];
      }
    }

    /** `delete_all_user_data`: the user's rows go from all six log tables; the user row stays. */
    method DeleteAllUserData(id: int)
      requires Valid()
      modifies this`water, this`exercise, this`retention, this`activities, this`sleep, this`screenTime
      ensures Valid()
      ensures water == PurgeTable(old(water), id) && exercise == PurgeTable(old(exercise), id)
      ensures retention == PurgeTable(old(retention), id) && activities == PurgeTable(old(activities), id)
      ensures sleep == PurgeTable(old(sleep), id) && screenTime == PurgeTable(old(screenTime), id)
      ensures forall d, off :: WaterTotalForDate(id, d, off) == 0
    {
      PurgeOnePerDay(exercise.rows, id);
      PurgeOnePerDay(retention.rows, id);
      water, exercise, retention := PurgeTable(water, id), PurgeTable(exercise, id), PurgeTable(retention, id);
      activities, sleep, screenTime := PurgeTable(activities, id), PurgeTable(sleep, id), PurgeTable(screenTime, id);
      PurgedWaterZero(old(water).rows, id);
    }

    // ---------------------------------------------------------- logging

    /**
     * `add_water`: append a log. `water_logs.user_id` is a foreign key into
     * `users`, enforced on connecting, so for an unknown user the insert is
     * refused (`ok` false) and the table is unchanged.
     */
    method AddWater(id: int, amountMl: int, ts: int) returns (ok: bool)
      requires Valid()
      modifies this`water
      ensures Valid()
      ensures ok <==> id in users
      ensures ok ==> water == Insert(old(water), id, WaterLog(amountMl, ts))
      ensures !ok ==> water == old(water)
    {
      ok := id in users;
      if ok {
        water := Insert(water, id, WaterLog(amountMl, ts));
      }
    }

    /** `set_exercise`: upsert the answer for (user, date). */
    method SetExercise(id: int, date: int, didExercise: bool, ts: int)
      requires Valid()
      modifies this`exercise
      ensures Valid()
      ensures exercise == UpsertFlag(old(exercise), id, date, didExercise, ts)
    {
      UpsertFlagOnePerDay(exercise, id, date, didExercise, ts);
      exercise := UpsertFlag(exercise, id, date, didExercise, ts);
    }

    /** `set_retention`: upsert the answer for (user, date). */
    method SetRetention(id: int, date: int, didRetain: bool, ts: int)
      requires Valid()
      modifies this`retention
      ensures Valid()
      ensures retention == UpsertFlag(old(retention), id, date, didRetain, ts)
    {
      UpsertFlagOnePerDay(retention, id, date, didRetain, ts);
      retention := UpsertFlag(retention, id, date, didRetain, ts);
    }

    /** `add_activity`: append an activity. */
    method AddActivity(id: int, date: int, activityType: string, details: Option<string>, ts: int)
      requires Valid()
      modifies this`activities
      ensures Valid()
      ensures activities == Insert(old(activities), id, Activity(date, activityType, details, ts))
    {
      activities := Insert(activities, id, Activity(date, activityType, details, ts));
    }

    /** `log_sleep_start`: append an open row holding only the start. */
    method LogSleepStart(id: int, date: int, ts: int)
      requires Valid()
      modifies this`sleep
      ensures Valid()
      ensures sleep == Insert(old(sleep), id, SleepLog(date, Some(ts), None, None))
    {
      sleep := Insert(sleep, id, SleepLog(date, Some(ts), None, None));
    }

    /**
     * `log_wake`: close the user's open row with the highest id, recording the
     * wake, the duration and the wake's date; without one, append a row
     * holding only the wake.
     */
    method LogWake(id: int, date: int, ts: int)
      requires Valid()
      modifies this`sleep
      ensures Valid()
      ensures match LastIndex(old(sleep.rows), OpenFor(id))
              case Some(i) =>
                var start := old(sleep.rows)[i].data.sleepStartUtc;
                sleep == UpdateAt(old(sleep), i, SleepLog(date, start, Some(ts), Some(SleepDuration(start, ts))))
              case None =>
                sleep == Insert(old(sleep), id, SleepLog(date, None, Some(ts), None))
    {
      var open := LastIndex(sleep.rows, OpenFor(id));
      if open.Some? {
        var i := open.value;
        var start := sleep.rows[i].data.sleepStartUtc;
        sleep := UpdateAt(sleep, i, SleepLog(date, start, Some(ts), Some(SleepDuration(start, ts))));
      } else {
        sleep := Insert(sleep, id, SleepLog(date, None, Some(ts), None));
      }
    }

    /** `add_screen_time`: append a screen-time log. */
    method AddScreenTime(id: int, date: int, minutes: int, ts: int)
      requires Valid()
      modifies this`screenTime
      ensures Valid()
      ensures screenTime == Insert(old(screenTime), id, ScreenTime(date, minutes, ts))
    {
      screenTime := Insert(screenTime, id, ScreenTime(date, minutes, ts));
    }

    // ---------------------------------------------------------- reads

    /**
     * `get_water_total_for_date`: the user's amounts logged inside the local
     * day's window; a user without water logs totals 0 on every day.
     */
    function WaterTotalForDate(id: int, date: int, tzOffsetMinutes: int): (total: int)
      reads this
      ensures total != 0 ==> |OwnedBy(water.rows, id)| > 0
    {
      var from := DayStart(date, tzOffsetMinutes);
      WaterSumOwned(water.rows, id, from);
      WaterSum(water.rows, id, from, from + SecondsPerDay)
    }

    /** A day's total is 0 when the user logged nothing inside its window, and non-zero only with such a log. */
    lemma WaterTotalSupport(id: int, date: int, tzOffsetMinutes: int)
      ensures var from := DayStart(date, tzOffsetMinutes);
              (forall j :: 0 <= j < |water.rows| ==> !LogInWindow(water.rows[j], id, from, from + SecondsPerDay))
              ==> WaterTotalForDate(id, date, tzOffsetMinutes) == 0
      ensures var from := DayStart(date, tzOffsetMinutes);
              WaterTotalForDate(id, date, tzOffsetMinutes) != 0
              ==> exists j :: 0 <= j < |water.rows| && LogInWindow(water.rows[j], id, from, from + SecondsPerDay)
    {
      var from := DayStart(date, tzOffsetMinutes);
      WaterSumSupport(water.rows, id, from, from + SecondsPerDay);
    }

    /**
     * `get_activities_for_date`: one entry per activity of the user on that
     * date, each the type and the details (or "") of such a row.
     */
    function ActivitiesForDate(id: int, date: int): (r: seq<(string, string)>)
      reads this
      ensures |r| == Count(activities.rows, ActivityOn(id, date))
      ensures forall k :: 0 <= k < |r| ==> EntryOfRowOn(r[k], activities.rows, id, date)
    {
      ActivitiesOnShape(activities.rows, id, date);
      ActivitiesOn(activities.rows, id, date)
    }

    /** The target the summary and the water streak use: the user's, else 4000 ml. */
    function WaterTarget(id: int): int
      reads this
    {
      if id in users then users[id].dailyWaterTargetMl else DefaultWaterTargetMl
    }

    /** `get_day_summary`. */
    function DaySummaryFor(id: int, date: int): (s: DaySummary)
      requires Valid()
      reads this
      ensures id !in users ==> s.waterTargetMl == DefaultWaterTargetMl
      ensures id in users ==> s.waterTargetMl == users[id].dailyWaterTargetMl
      ensures s.didExercise <==> exists i :: 0 <= i < |exercise.rows| && exercise.rows[i].user == id
                                     && exercise.rows[i].data.date == date && exercise.rows[i].data.value
      ensures s.didRetain <==> exists i :: 0 <= i < |retention.rows| && retention.rows[i].user == id
                                   && retention.rows[i].data.date == date && retention.rows[i].data.value
      ensures s.activities == ActivitiesOn(activities.rows, id, date)
      ensures s.sleepMinutes.None? <==> forall i :: 0 <= i < |sleep.rows| ==> !CompletedOn(id, date)(sleep.rows[i])
      ensures s.sleepMinutes.Some? ==>
                exists i :: 0 <= i < |sleep.rows| && CompletedOn(id, date)(sleep.rows[i])
                  && s.sleepMinutes == sleep.rows[i].data.durationMinutes
                  && forall j :: 0 <= j < |sleep.rows| && CompletedOn(id, date)(sleep.rows[j])
                       ==> sleep.rows[j].id <= sleep.rows[i].id
      ensures s.screenTimeMinutes == ScreenSum(screenTime.rows, id, date)
    {
      FlagAnswer(exercise.rows, id, date);
      FlagAnswer(retention.rows, id, date);
      var latest := LastIndex(sleep.rows, CompletedOn(id, date));
      var sleepMinutes :=
        if latest.Some? then
          LatestHighestId(sleep.rows, CompletedOn(id, date), latest.value);
          sleep.rows[latest.value].data.durationMinutes
        else None;
      DaySummary(
        WaterTarget(id),
        match FlagAt(exercise.rows, id, date) case Some(f) => f.value case None => false,
        match FlagAt(retention.rows, id, date) case Some(f) => f.value case None => false,
        ActivitiesOn(activities.rows, id, date),
        sleepMinutes,
        ScreenSum(screenTime.rows, id, date))
    }

    /** The table a boolean streak walks. */
    function FlagRows(table: FlagTable): seq<Row<DayFlag>>
      reads this
    {
      match table
      case ExerciseLogs => exercise.rows
      case RetentionLogs => retention.rows
    }

    // ---------------------------------------------------------- streaks

    /**
     * `compute_boolean_streak`: walk back from `today` while the day has a row
     * whose value is `expected`; the walk ends because every counted day uses up
     * one of the user's rows.
     */
    method ComputeBooleanStreak(id: int, table: FlagTable, expected: int, today: int) returns (streak: nat)
      requires Valid()
      ensures forall d :: today - streak < d <= today ==> FlagMatches(FlagRows(table), id, d, expected)
      ensures !FlagMatches(FlagRows(table), id, today - streak, expected)
      ensures streak <= |OwnedBy(FlagRows(table), id)|
    {
      var rows := FlagRows(table);
      streak := 0;
      var current := today;
      while true
        invariant current == today - streak
        invariant forall d :: today - streak < d <= today ==> FlagMatches(rows, id, d, expected)
        invariant streak + Count(rows, DatedUpTo(id, current)) <= Count(rows, DatedUpTo(id, today))
        decreases Count(rows, DatedUpTo(id, current))
      {
        var row := FindDay(rows, id, current);
        if row.Some? && (if rows[row.value].data.value then 1 else 0) == expected {
          assert FlagMatches(rows, id, current, expected);
          FlagDayHasRow(rows, id, current);
          streak := streak + 1;
          current := current - 1;
        } else {
          break;
        }
      }
      CountOwned(rows, DatedUpTo(id, today), id);
    }

    /**
     * `get_water_completion_streak`: walk back from `today` while the day's
     * total reaches the target, re-read every day. With a positive target
     * every counted day holds one of the user's logs, so the walk ends; with a
     * target of 0 or less it ends at the first day whose total is negative,
     * which amounts read without a sign check can produce.
     */
    method WaterCompletionStreak(id: int, tzOffsetMinutes: int, today: int) returns (streak: nat)
      requires WaterTarget(id) > 0 ||
               exists d :: d <= today && WaterTotalForDate(id, d, tzOffsetMinutes) < WaterTarget(id)
      ensures forall d :: today - streak < d <= today ==> WaterTotalForDate(id, d, tzOffsetMinutes) >= WaterTarget(id)
      ensures WaterTotalForDate(id, today - streak, tzOffsetMinutes) < WaterTarget(id)
      ensures WaterTarget(id) > 0 ==> streak <= |OwnedBy(water.rows, id)|
    {
      ghost var stop := today;
      if WaterTarget(id) <= 0 {
        stop :| stop <= today && WaterTotalForDate(id, stop, tzOffsetMinutes) < WaterTarget(id);
      }
      streak := 0;
      var current := today;
      while true
        invariant current == today - streak
        invariant forall d :: today - streak < d <= today ==> WaterTotalForDate(id, d, tzOffsetMinutes) >= WaterTarget(id)
        invariant WaterTarget(id) > 0 ==>
                    streak + LogsThrough(water.rows, id, current, tzOffsetMinutes) <= LogsThrough(water.rows, id, today, tzOffsetMinutes)
        invariant WaterTarget(id) <= 0 ==> stop <= current
        decreases if WaterTarget(id) > 0 then LogsThrough(water.rows, id, current, tzOffsetMinutes) else current - stop
      {
        var targetMl := if id in users then users[id].dailyWaterTargetMl else DefaultWaterTargetMl;
        var total := WaterTotalForDate(id, current, tzOffsetMinutes);
        if total >= targetMl {
          if targetMl > 0 {
            StepBackLeavesFewerLogs(water.rows, id, current, tzOffsetMinutes);
          }
          streak := streak + 1;
          current := current - 1;
        } else {
          break;
        }
      }
      if WaterTarget(id) > 0 {
        StreakWithinLogs(water.rows, id, today, tzOffsetMinutes, streak);
      }
    }
  }

  /** A streak that used up distinct logs of the user through `today` is at most the user's log count. */
  lemma StreakWithinLogs(rows: seq<Row<WaterLog>>, user: int, today: int, tzOffsetMinutes: int, streak: nat)
    requires streak <= LogsThrough(rows, user, today, tzOffsetMinutes)
    ensures streak <= |OwnedBy(rows, user)|
  {
    CountOwned(rows, LoggedBefore(user, DayStart(today, tzOffsetMinutes) + SecondsPerDay), user);
  }

  /** Purging keeps one row per key. */
  lemma {:induction false} PurgeOnePerDay(rows: seq<Row<DayFlag>>, user: int)
    requires OnePerDay(rows)
    ensures OnePerDay(Purge(rows, user))
    decreases |rows|
  {
    if rows != [] {
      var prefix, last := rows[..|rows| - 1], rows[|rows| - 1];
      PurgeOnePerDay(prefix, user);
      PurgeSubset(prefix, user);
      var rest := Purge(prefix, user);
      if last.user != user {
        assert Purge(rows, user) == rest + [last];
        forall k | 0 <= k < |rest|
          ensures !(rest[k].user == last.user && rest[k].data.date == last.data.date)
        {
          var m :| 0 <= m < |prefix| && prefix[m] == rest[k];
          assert rows[m] == rest[k];
        }
      }
    }
  }

  lemma FlagAnswer(rows: seq<Row<DayFlag>>, user: int, date: int)
    requires OnePerDay(rows)
    ensures (match FlagAt(rows, user, date) case Some(f) => f.value case None => false)
            <==> exists i :: 0 <= i < |rows| && rows[i].user == user && rows[i].data.date == date && rows[i].data.value
  {
  }

  lemma LatestHighestId(rows: seq<Row<SleepLog>>, p: Row<SleepLog> -> bool, i: nat)
    requires IdsAscending(rows)
    requires LastIndex(rows, p) == Some(i)
    ensures forall j :: 0 <= j < |rows| && p(rows[j]) ==> rows[j].id <= rows[i].id
  {
  }

  /**
   * The start/wake protocol: a start followed by a wake closes the row the
   * start opened, whatever open rows came before, with the duration between them.
   */
  method SleepThenWake(db: Database, id: int, startDate: int, start: int, wakeDate: int, wake: int)
    requires db.Valid()
    modifies db
    ensures db.Valid()
    ensures |db.sleep.rows| == |old(db.sleep.rows)| + 1
    ensures db.sleep.rows[..|old(db.sleep.rows)|] == old(db.sleep.rows)
    ensures db.sleep.rows[|old(db.sleep.rows)|]
            == Row(old(db.sleep.nextId), id, SleepLog(wakeDate, Some(start), Some(wake), Some(SleepDuration(Some(start), wake))))
  {
    db.LogSleepStart(id, startDate, start);
    ghost var n := |old(db.sleep.rows)|;
    assert OpenFor(id)(db.sleep.rows[n]);
    db.LogWake(id, wakeDate, wake);
  }
}
