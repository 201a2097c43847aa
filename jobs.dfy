/**
 * Reminder scheduler of the habit tracker (`lifetrack_pro/jobs.py`).
 *
 * From the wake time, sleep time, daily water target and cup size it derives
 * evenly spaced daily water-reminder clock times, and one daily-summary time.
 * It reconciles them against a per-chat registry (the application's
 * `bot_data`): the old job handles are popped and cancelled, a cancellation
 * that fails is swallowed, and the new handles are stored.
 *
 * The job queue is modelled by the set of armed jobs and a handle counter;
 * which cancellations fail is a parameter (`refused`: the handles whose
 * removal raises), since that behaviour lives in the job-queue library.
 */
module Jobs {
  import opened Wrappers
  import opened TimeUtils

  /** Cup size a reminder reports when its payload lacks one. */
  const DefaultCupSizeMl: int := 250
  /** Summary time when no sleep time is set: 21:00. */
  const DefaultSummaryMinutes: int := 21 * 60

  function Max(a: int, b: int): int { if a >= b then a else b }

  /** The callback a job runs; a water reminder carries the index that its job name ends in. */
  datatype Callback = WaterReminder(index: nat) | DailySummary

  /** A daily job on the queue: handle, owner chat, callback, local fire time, zone and cup-size payload. */
  datatype Job = Job(handle: nat, chat: int, callback: Callback, time: ClockTime, zone: string, cupSizeMl: Option<int>)

  /** How one best-effort cancellation ended. */
  datatype CancelOutcome = Cancelled | AlreadyGone | CancelFailed

  // ------------------------------------------------------------ trigger derivation

  /** Minutes from wake to sleep, or to the end of the day when sleep is not after wake. */
  function ActiveWindow(wake: int, sleep: int): int {
    if sleep <= wake then MinutesPerDay - wake else sleep - wake
  }

  function ReminderCount(targetMl: int, cupSizeMl: int): int {
    Max(1, targetMl / Max(1, cupSizeMl))
  }

  function ReminderInterval(wake: int, sleep: int, targetMl: int, cupSizeMl: int): int {
    Max(1, ActiveWindow(wake, sleep) / ReminderCount(targetMl, cupSizeMl))
  }

  /** Minutes after wake at which reminder `i` (counted from 0) fires. */
  function TriggerOffset(wake: int, sleep: int, targetMl: int, cupSizeMl: int, i: int): int {
    ReminderInterval(wake, sleep, targetMl, cupSizeMl) * (i + 1)
  }

  /** The daily clock times of the water reminders, in firing order, at least one. */
  function TriggerTimes(wake: int, sleep: int, targetMl: int, cupSizeMl: int): (r: seq<ClockTime>)
    ensures |r| == ReminderCount(targetMl, cupSizeMl)
  {
    seq(ReminderCount(targetMl, cupSizeMl),
        i requires 0 <= i < ReminderCount(targetMl, cupSizeMl) =>
          MinutesToTime((wake + TriggerOffset(wake, sleep, targetMl, cupSizeMl, i)) % MinutesPerDay))
  }

  /**
   * The loop of `schedule_water_reminders` that steps `current` by the interval
   * and collects one clock time per reminder.
   */
  method ComputeTriggerTimes(wake: int, sleep: int, targetMl: int, cupSizeMl: int) returns (times: seq<ClockTime>)
    ensures times == TriggerTimes(wake, sleep, targetMl, cupSizeMl)
  {
    var totalMinutes := if sleep <= wake then 24 * 60 - wake else sleep - wake;
    var reminders := Max(1, targetMl / Max(1, cupSizeMl));
    var interval := Max(1, totalMinutes / reminders);
    ghost var spec := TriggerTimes(wake, sleep, targetMl, cupSizeMl);
    assert reminders == |spec| && interval == ReminderInterval(wake, sleep, targetMl, cupSizeMl);
    times := [];
    var current := wake + interval;
    for i := 0 to reminders
      invariant |times| == i
      invariant current == wake + TriggerOffset(wake, sleep, targetMl, cupSizeMl, i)
      invariant times == spec[..i]
    {
      times := times + [MinutesToTime(current % (24 * 60))];
      current := current + interval;
    }
  }

  lemma MulMonotone(a: int, b: int, c: int)
    requires a >= 0 && b <= c
    ensures a * b <= a * c
  {
    assert a * c - a * b == a * (c - b);
  }

  /** The window never wraps past midnight, and the interval is at least one minute. */
  lemma WindowShape(wake: int, sleep: int, targetMl: int, cupSizeMl: int)
    requires 0 <= wake < MinutesPerDay && 0 <= sleep < MinutesPerDay
    ensures sleep > wake ==> ActiveWindow(wake, sleep) == sleep - wake
    ensures sleep <= wake ==> ActiveWindow(wake, sleep) == MinutesPerDay - wake
    ensures 1 <= ActiveWindow(wake, sleep) && wake + ActiveWindow(wake, sleep) <= MinutesPerDay
    ensures ReminderCount(targetMl, cupSizeMl) >= 1
    ensures 1 <= ReminderInterval(wake, sleep, targetMl, cupSizeMl) <= MinutesPerDay
  {
  }

  /**
   * There are `max(1, target // max(1, cup))` reminders and reminder `i` fires at
   * `(wake + interval * (i + 1)) mod 1440`.
   */
  lemma TriggerTimesShape(wake: int, sleep: int, targetMl: int, cupSizeMl: int)
    ensures |TriggerTimes(wake, sleep, targetMl, cupSizeMl)| == ReminderCount(targetMl, cupSizeMl)
    ensures forall i :: 0 <= i < |TriggerTimes(wake, sleep, targetMl, cupSizeMl)| ==>
              var t := TriggerTimes(wake, sleep, targetMl, cupSizeMl)[i];
              0 <= t.hour < 24 && 0 <= t.minute < 60 &&
              MinuteOfDay(t) == (wake + ReminderInterval(wake, sleep, targetMl, cupSizeMl) * (i + 1)) % MinutesPerDay
  {
    var ts := TriggerTimes(wake, sleep, targetMl, cupSizeMl);
    forall i | 0 <= i < |ts|
      ensures MinuteOfDay(ts[i]) == (wake + ReminderInterval(wake, sleep, targetMl, cupSizeMl) * (i + 1)) % MinutesPerDay
    {
      var x := (wake + TriggerOffset(wake, sleep, targetMl, cupSizeMl, i)) % MinutesPerDay;
      assert MinuteOfDay(ts[i]) == x % MinutesPerDay;
    }
  }

  /**
   * When the window holds at least one minute per reminder, every reminder lies
   * strictly after wake and no later than the window's end; when sleep is after
   * wake that end is the sleep time and the clock time needs no wrapping.
   */
  lemma TriggersInsideWindow(wake: int, sleep: int, targetMl: int, cupSizeMl: int, i: int)
    requires 0 <= wake < MinutesPerDay && 0 <= sleep < MinutesPerDay
    requires ActiveWindow(wake, sleep) >= ReminderCount(targetMl, cupSizeMl)
    requires 0 <= i < ReminderCount(targetMl, cupSizeMl)
    ensures 0 < TriggerOffset(wake, sleep, targetMl, cupSizeMl, i) <= ActiveWindow(wake, sleep)
    ensures sleep > wake ==>
              wake < MinuteOfDay(TriggerTimes(wake, sleep, targetMl, cupSizeMl)[i]) <= sleep
  {
    var w, n := ActiveWindow(wake, sleep), ReminderCount(targetMl, cupSizeMl);
    StepsWithinWindow(w, n, i);
    if sleep > wake {
      TriggerWithoutWrap(wake, sleep, targetMl, cupSizeMl, i);
    }
  }

  /** A reminder that falls before midnight keeps its offset from wake unwrapped. */
  lemma TriggerWithoutWrap(wake: int, sleep: int, targetMl: int, cupSizeMl: int, i: int)
    requires 0 <= i < ReminderCount(targetMl, cupSizeMl)
    requires 0 <= wake + TriggerOffset(wake, sleep, targetMl, cupSizeMl, i) < MinutesPerDay
    ensures MinuteOfDay(TriggerTimes(wake, sleep, targetMl, cupSizeMl)[i])
            == wake + TriggerOffset(wake, sleep, targetMl, cupSizeMl, i)
  {
    var x := wake + TriggerOffset(wake, sleep, targetMl, cupSizeMl, i);
    DayModUnique(x, 0, x);
    assert TriggerTimes(wake, sleep, targetMl, cupSizeMl)[i] == MinutesToTime(x % MinutesPerDay);
  }

  /** `i + 1` steps of `w / n` minutes, for `i < n <= w`, stay inside a window of `w` minutes. */
  lemma StepsWithinWindow(w: int, n: int, i: int)
    requires 1 <= n <= w && 0 <= i < n
    ensures 0 < Max(1, w / n) * (i + 1) <= w
  {
    var k := w / n;
    assert w == n * k + w % n;
    assert k >= 1;
    MulMonotone(k, i + 1, n);
  }

  /**
   * The first reminder is never at the wake time itself, except when the
   * interval is a whole day: wake and sleep both at 00:00 with a single reminder.
   */
  lemma FirstTriggerAfterWake(wake: int, sleep: int, targetMl: int, cupSizeMl: int)
    requires 0 <= wake < MinutesPerDay && 0 <= sleep < MinutesPerDay
    requires !(wake == 0 && sleep == 0 && ReminderCount(targetMl, cupSizeMl) == 1)
    ensures MinuteOfDay(TriggerTimes(wake, sleep, targetMl, cupSizeMl)[0]) != wake
  {
    TriggerTimesShape(wake, sleep, targetMl, cupSizeMl);
    var k := ReminderInterval(wake, sleep, targetMl, cupSizeMl);
    IntervalBelowDay(wake, sleep, targetMl, cupSizeMl);
    var x := wake + k;
    if x < MinutesPerDay {
      assert x % MinutesPerDay == x;
    } else {
      DayModUnique(x, 1, x - MinutesPerDay);
    }
  }

  lemma IntervalBelowDay(wake: int, sleep: int, targetMl: int, cupSizeMl: int)
    requires 0 <= wake < MinutesPerDay && 0 <= sleep < MinutesPerDay
    requires !(wake == 0 && sleep == 0 && ReminderCount(targetMl, cupSizeMl) == 1)
    ensures 1 <= ReminderInterval(wake, sleep, targetMl, cupSizeMl) < MinutesPerDay
  {
    var n := ReminderCount(targetMl, cupSizeMl);
    var w := ActiveWindow(wake, sleep);
    WindowShape(wake, sleep, targetMl, cupSizeMl);
    if n >= 2 {
      var q := w / n;
      assert w == n * q + w % n;
      MulMonotone(q, 2, n);
      assert 2 * q <= w;
    } else {
      assert w / n == w;
    }
  }

  /** Wake and sleep both at 00:00 and one reminder: the only reminder is at the wake time. */
  lemma FirstTriggerAtWakeCase()
    ensures TriggerTimes(0, 0, 250, 250) == [ClockTime(0, 0)]
  {
  }

  /** 07:00 to 22:30, 2000 ml in 250 ml cups: eight reminders 116 minutes apart. */
  lemma TriggerTimesExample()
    ensures ActiveWindow(420, 1350) == 930 && ReminderCount(2000, 250) == 8 && ReminderInterval(420, 1350, 2000, 250) == 116
    ensures TriggerTimes(420, 1350, 2000, 250) ==
              [ClockTime(8, 56), ClockTime(10, 52), ClockTime(12, 48), ClockTime(14, 44),
               ClockTime(16, 40), ClockTime(18, 36), ClockTime(20, 32), ClockTime(22, 28)]
  {
    var ts := TriggerTimes(420, 1350, 2000, 250);
    assert ReminderInterval(420, 1350, 2000, 250) == 116;
    forall i | 0 <= i < 8
      ensures ts[i] == ClockTime((536 + 116 * i) / 60, (536 + 116 * i) % 60)
    {
      var x := 420 + 116 * (i + 1);
      assert x < MinutesPerDay && x % MinutesPerDay == x;
      MinutesToTimeInDay(x);
    }
  }

  /** The water jobs armed for `times`, with handles counted from `base`. */
  function WaterJobsFor(base: nat, chat: int, times: seq<ClockTime>, zone: string, cupSizeMl: int): seq<Job> {
    seq(|times|, k requires 0 <= k < |times| =>
          Job(base + k, chat, WaterReminder(k), times[k], zone, Some(cupSizeMl)))
  }

  /** The cup size `send_water_reminder` reports: the payload's, else 250 ml. */
  function ReminderCupSize(job: Job): (ml: int)
    ensures job.cupSizeMl.Some? ==> ml == job.cupSizeMl.value
    ensures job.cupSizeMl.None? ==> ml == DefaultCupSizeMl
  {
    job.cupSizeMl.GetOr(DefaultCupSizeMl)
  }

  /** Every water job armed for `times` is a water reminder reporting the cup size captured when it was armed. */
  lemma WaterJobsCupSize(base: nat, chat: int, times: seq<ClockTime>, zone: string, cupSizeMl: int)
    ensures forall j :: j in WaterJobsFor(base, chat, times, zone, cupSizeMl) ==>
              j.chat == chat && j.callback.WaterReminder? && ReminderCupSize(j) == cupSizeMl
  {
  }

  /** The jobs among `jobs` whose cancellation succeeds. */
  function Removable(jobs: seq<Job>, refused: set<nat>): set<Job> {
    set j | j in jobs && j.handle !in refused
  }

  /** The daily-summary time: the sleep time if set, else 21:00. */
  function SummaryTime(sleep: Option<int>): (t: ClockTime)
    ensures sleep.None? ==> t == ClockTime(21, 0)
    ensures sleep.Some? ==> 0 <= t.hour < 24 && 0 <= t.minute < 60 && MinuteOfDay(t) == sleep.value % MinutesPerDay
  {
    MinutesToTimeInDay(DefaultSummaryMinutes);
    MinutesToTime(sleep.GetOr(DefaultSummaryMinutes))
  }

  // ------------------------------------------------------------ registry and queue

  class ReminderScheduler {
    /** `bot_data["water_reminder_<chat>"]`: the water jobs last armed for each chat. */
    var waterJobs: map<int, seq<Job>>
    /** `bot_data["daily_summary_<chat>"]`: the summary job last armed for each chat. */
    var summaryJobs: map<int, Job>
    /** The job queue: jobs armed to fire daily. */
    var armed: set<Job>
    /** The handle the queue gives the next job it arms. */
    var nextHandle: nat

    /** Handles are issued by the queue, and each registry entry holds only its own chat's jobs of its kind. */
    ghost predicate Valid()
      reads this
    {
      && (forall j :: j in armed ==> j.handle < nextHandle)
      && (forall c :: c in waterJobs ==>
            forall j :: j in waterJobs[c] ==> j.chat == c && j.callback.WaterReminder? && j.handle < nextHandle)
      && (forall c :: c in summaryJobs ==>
            summaryJobs[c].chat == c && summaryJobs[c].callback == DailySummary && summaryJobs[c].handle < nextHandle)
    }

    constructor ()
      ensures Valid()
      ensures waterJobs == map[] && summaryJobs == map[] && armed == {} && nextHandle == 0
    {
      waterJobs, summaryJobs, armed, nextHandle := map[], map[], {}, 0;
    }

    /** The registered water jobs of `chat`, as `bot_data.pop(key, [])` finds them. */
    function RegisteredWater(chat: int): seq<Job>
      reads this
    {
      if chat in waterJobs then waterJobs[chat] else []
    }

    /** `jobq.run_daily(...)`: arm a new daily job under a fresh handle. */
    method RunDaily(chat: int, callback: Callback, time: ClockTime, zone: string, cupSizeMl: Option<int>) returns (job: Job)
      modifies this`armed, this`nextHandle
      ensures job == Job(old(nextHandle), chat, callback, time, zone, cupSizeMl)
      ensures armed == old(armed) + {job} && nextHandle == old(nextHandle) + 1
    {
      job := Job(nextHandle, chat, callback, time, zone, cupSizeMl);
      armed := armed + {job};
      nextHandle := nextHandle + 1;
    }

    /** `job.schedule_removal()` inside `try: ... except Exception: pass`. */
    method Cancel(job: Job, refused: set<nat>) returns (outcome: CancelOutcome)
      modifies this`armed
      ensures outcome == (if job.handle in refused then CancelFailed
                          else if job in old(armed) then Cancelled else AlreadyGone)
      ensures armed == if job.handle in refused then old(armed) else old(armed) - {job}
    {
      if job.handle in refused {
        outcome := CancelFailed;
      } else if job in armed {
        armed := armed - {job};
        outcome := Cancelled;
      } else {
        outcome := AlreadyGone;
      }
    }

    /** The loop over the popped jobs; a failure leaves that job armed and the loop goes on. */
    method CancelAll(jobs: seq<Job>, refused: set<nat>) returns (outcomes: seq<CancelOutcome>)
      modifies this`armed
      ensures armed == old(armed) - Removable(jobs, refused)
      ensures |outcomes| == |jobs|
      ensures forall k :: 0 <= k < |jobs| ==> (outcomes[k] == CancelFailed <==> jobs[k].handle in refused)
    {
      outcomes := [];
      for i := 0 to |jobs|
        invariant armed == old(armed) - Removable(jobs[..i], refused)
        invariant |outcomes| == i
        invariant forall k :: 0 <= k < i ==> (outcomes[k] == CancelFailed <==> jobs[k].handle in refused)
      {
        assert jobs[..i + 1] == jobs[..i] + [jobs[i]];
        var o := Cancel(jobs[i], refused);
        outcomes := outcomes + [o];
      }
      assert jobs[..|jobs|] == jobs;
    }

    /**
     * `schedule_water_reminders`: cancel every water job registered for `chat`
     * and drop its registry key; with wake or sleep unset stop there, otherwise
     * arm one job per trigger time, each carrying the cup size, and register them.
     */
    method ScheduleWaterReminders(chat: int, wake: Option<int>, sleep: Option<int>, targetMl: int, cupSizeMl: int,
                                  zone: string, refused: set<nat>)
      requires Valid()
      modifies this
      ensures Valid()
      ensures summaryJobs == old(summaryJobs)
      ensures forall j :: j in old(armed) && j.chat != chat ==> j in armed
      ensures wake.None? || sleep.None? ==>
                && waterJobs == old(waterJobs) - {chat}
                && armed == old(armed) - Removable(old(RegisteredWater(chat)), refused)
      ensures wake.Some? && sleep.Some? ==>
                var jobs := WaterJobsFor(old(nextHandle), chat, TriggerTimes(wake.value, sleep.value, targetMl, cupSizeMl),
                                         zone, cupSizeMl);
                && waterJobs == old(waterJobs)[chat := jobs]
                && armed == (old(armed) - Removable(old(RegisteredWater(chat)), refused)) + set j | j in jobs
                && (forall j :: j in jobs ==> ReminderCupSize(j) == cupSizeMl)
                && nextHandle == old(nextHandle) + |jobs|
      ensures wake.None? || sleep.None? ==> nextHandle == old(nextHandle)
    {
      var existing := RegisteredWater(chat);
      waterJobs := waterJobs - {chat};
      var _ := CancelAll(existing, refused);
      if wake.None? || sleep.None? {
        return;
      }
      var times := ComputeTriggerTimes(wake.value, sleep.value, targetMl, cupSizeMl);
      var newJobs := ArmWaterJobs(chat, times, zone, cupSizeMl);
      waterJobs := waterJobs[chat := newJobs];
    }

    /** The loop of `schedule_water_reminders` that arms one daily job per trigger time. */
    method ArmWaterJobs(chat: int, times: seq<ClockTime>, zone: string, cupSizeMl: int) returns (jobs: seq<Job>)
      modifies this`armed, this`nextHandle
      ensures jobs == WaterJobsFor(old(nextHandle), chat, times, zone, cupSizeMl)
      ensures armed == old(armed) + (set j | j in jobs) && nextHandle == old(nextHandle) + |times|
    {
      ghost var base := nextHandle;
      jobs := [];
      for idx := 0 to |times|
        invariant nextHandle == base + idx
        invariant jobs == WaterJobsFor(base, chat, times[..idx], zone, cupSizeMl)
        invariant armed == old(armed) + set j | j in jobs
      {
        var job := RunDaily(chat, WaterReminder(idx), times[idx], zone, Some(cupSizeMl));
        assert times[..idx + 1] == times[..idx] + [times[idx]];
        jobs := jobs + [job];
      }
      assert times[..|times|] == times;
    }

    /**
     * `reschedule_daily_summary`: cancel the chat's summary job if there is one,
     * then arm and register exactly one, at the sleep time if set, else 21:00.
     */
    method RescheduleDailySummary(chat: int, sleep: Option<int>, zone: string, refused: set<nat>)
      requires Valid()
      modifies this
      ensures Valid()
      ensures waterJobs == old(waterJobs)
      ensures var job := Job(old(nextHandle), chat, DailySummary, SummaryTime(sleep), zone, None);
              && summaryJobs == old(summaryJobs)[chat := job]
              && armed == (old(armed) - (if chat in old(summaryJobs) && old(summaryJobs)[chat].handle !in refused
                                         then {old(summaryJobs)[chat]} else {})) + {job}
      ensures forall j :: j in old(armed) && j.chat != chat ==> j in armed
      ensures nextHandle == old(nextHandle) + 1
    {
      if chat in summaryJobs {
        var existing := summaryJobs[chat];
        summaryJobs := summaryJobs - {chat};
        var _ := Cancel(existing, refused);
      }
      var job := RunDaily(chat, DailySummary, SummaryTime(sleep), zone, None);
      summaryJobs := summaryJobs[chat := job];
    }
  }

  /** The times of a registered water-job list. */
  function JobTimes(jobs: seq<Job>): seq<ClockTime> {
    seq(|jobs|, k requires 0 <= k < |jobs| => jobs[k].time)
  }

  /**
   * Reconciling twice with the same settings registers the same trigger times
   * both times: the settings alone determine them.
   */
  method ReconcileTwice(s: ReminderScheduler, chat: int, wake: int, sleep: int, targetMl: int, cupSizeMl: int,
                        zone: string, refused: set<nat>)
    returns (first: seq<ClockTime>, second: seq<ClockTime>)
    requires s.Valid()
    modifies s
    ensures s.Valid()
    ensures first == second == TriggerTimes(wake, sleep, targetMl, cupSizeMl)
  {
    s.ScheduleWaterReminders(chat, Some(wake), Some(sleep), targetMl, cupSizeMl, zone, refused);
    first := JobTimes(s.waterJobs[chat]);
    s.ScheduleWaterReminders(chat, Some(wake), Some(sleep), targetMl, cupSizeMl, zone, refused);
    second := JobTimes(s.waterJobs[chat]);
  }
}
