/** `AlarmScheduler`: the trigger calculation, the slot keys, and the
    registration and cancellation of a timer's seven weekday slots.

    Time is counted in minutes of local wall-clock time from an epoch that
    falls on a Monday at 00:00; `now` is passed in and stays fixed for the
    whole of one call. */
module AlarmScheduler {
  import opened Wrappers
  import opened Text
  import opened Types

  // The arithmetic below writes 1440 (minutes per day) and 10080 (minutes
  // per week) as literals so that the solver sees linear terms.

  /** `DayOfWeek.value` (Monday = 1 ... Sunday = 7) of day number `d`. */
  function WeekdayOfDay(d: int): (w: int)
    ensures 1 <= w <= 7
  {
    d % 7 + 1
  }

  /** The weekday value of the day that instant `t` falls on. */
  function WeekdayAt(t: int): (w: int)
    ensures 1 <= w <= 7
  {
    WeekdayOfDay(t / 1440)
  }

  /** Minutes since the last midnight at instant `t`. */
  function MinuteOfDay(t: int): (m: int)
    ensures 0 <= m < 1440
  {
    t % 1440
  }

  /** Instant `t` is on weekday `day` at `time`. */
  predicate IsOccurrence(t: int, day: int, time: TimeOfDay) {
    WeekdayAt(t) == day && MinuteOfDay(t) == time.Minutes()
  }

  lemma DayAndMinute(d: int, m: int)
    requires 0 <= m < 1440
    ensures (d * 1440 + m) / 1440 == d
    ensures (d * 1440 + m) % 1440 == m
  {
  }

  /** `(day.value - today.dayOfWeek.value + 7) % 7`: how many days ahead
      the target weekday is, counting today as 0. */
  function DaysUntil(day: int, today: int): (d: int)
    requires 1 <= day <= 7 && 1 <= today <= 7
    ensures 0 <= d <= 6
    ensures WeekdayOfDay(today - 1 + d) == day
  {
    (day - today + 7) % 7
  }

  lemma WeekdayShift(dayNumber: int, d: int)
    ensures WeekdayOfDay(dayNumber + d) == WeekdayOfDay(WeekdayOfDay(dayNumber) - 1 + d)
  {
    var q := dayNumber / 7;
    assert dayNumber + d == 7 * q + (dayNumber % 7 + d);
  }

  /** Day `d` at minute `m` is an occurrence of weekday `day` at `time`. */
  lemma OccurrenceOnDay(d: int, time: TimeOfDay, day: int)
    requires WeekdayOfDay(d) == day
    ensures IsOccurrence(d * 1440 + time.Minutes(), day, time)
  {
    DayAndMinute(d, time.Minutes());
  }

  /** `nextTriggerMillis`: today at `time`, moved forward to the target
      weekday, and on by one week when that is not after `now`. */
  function NextTrigger(day: int, time: TimeOfDay, now: int): (r: int)
    requires 1 <= day <= 7
    ensures now < r <= now + 10080
    ensures IsOccurrence(r, day, time)
  {
    var today := now / 1440;
    var candidate := today * 1440 + time.Minutes();
    var daysUntil := DaysUntil(day, WeekdayOfDay(today));
    var target := candidate + daysUntil * 1440;
    WeekdayShift(today, daysUntil);
    WeekdayShift(today, daysUntil + 7);
    assert target == (today + daysUntil) * 1440 + time.Minutes();
    assert target + 10080 == (today + daysUntil + 7) * 1440 + time.Minutes();
    OccurrenceOnDay(today + daysUntil, time, day);
    OccurrenceOnDay(today + daysUntil + 7, time, day);
    if target <= now then target + 10080 else target
  }

  /** Occurrences of one weekday and time lie a whole number of weeks apart. */
  lemma {:induction false} OccurrencesWeeksApart(s: int, t: int, day: int, time: TimeOfDay)
    requires IsOccurrence(s, day, time) && IsOccurrence(t, day, time)
    ensures (t - s) % 10080 == 0
  {
    var ds, dt := s / 1440, t / 1440;
    assert s == ds * 1440 + time.Minutes();
    assert t == dt * 1440 + time.Minutes();
    assert ds % 7 == dt % 7;
    var k := dt / 7 - ds / 7;
    assert dt - ds == 7 * k;
    assert t - s == k * 10080;
  }

  /** The trigger is the earliest instant after `now` on that weekday at
      that time: no matching instant lies strictly between. */
  lemma NextTriggerIsEarliest(day: int, time: TimeOfDay, now: int, t: int)
    requires 1 <= day <= 7
    requires IsOccurrence(t, day, time) && now < t
    ensures NextTrigger(day, time, now) <= t
  {
    var r := NextTrigger(day, time, now);
    OccurrencesWeeksApart(r, t, day, time);
    var k := (t - r) / 10080;
    assert t - r == k * 10080;
    assert r - 10080 <= now;
    assert k >= 0;
  }

  /** Same-weekday cases: a time still ahead today fires today; a time at or
      before `now` fires exactly one week later, at the same time of day. */
  lemma NextTriggerSameDay(day: int, time: TimeOfDay, now: int)
    requires 1 <= day <= 7 && WeekdayAt(now) == day
    ensures MinuteOfDay(now) < time.Minutes() ==>
      NextTrigger(day, time, now) == now - MinuteOfDay(now) + time.Minutes()
    ensures time.Minutes() <= MinuteOfDay(now) ==>
      NextTrigger(day, time, now) == now - MinuteOfDay(now) + time.Minutes() + 10080
  {
    var today := now / 1440;
    assert now == today * 1440 + MinuteOfDay(now);
    assert DaysUntil(day, WeekdayOfDay(today)) == 0;
  }

  /** On a Tuesday at 10:00 (minute 2040 of the week), a Monday 09:00 slot
      next fires the following Monday and a Wednesday 09:00 slot the next day. */
  lemma NextTriggerExamples()
    ensures NextTrigger(1, TimeOfDay(9, 0), 2040) == 10620
    ensures NextTrigger(3, TimeOfDay(9, 0), 2040) == 3420
  {
    var nine := TimeOfDay(9, 0);
    OccurrenceOnDay(7, nine, 1);
    NextTriggerIsEarliest(1, nine, 2040, 10620);
    OccurrencesWeeksApart(NextTrigger(1, nine, 2040), 10620, 1, nine);
    OccurrenceOnDay(2, nine, 3);
    NextTriggerIsEarliest(3, nine, 2040, 3420);
    OccurrencesWeeksApart(NextTrigger(3, nine, 2040), 3420, 3, nine);
  }

  /** `config.days.padEnd(7, '0').take(7).map { it == '1' }`. */
  function NormalizeMask(days: string): (mask: seq<bool>)
    ensures |mask| == 7
    ensures forall i :: 0 <= i < 7 ==> mask[i] == (i < |days| && days[i] == '1')
  {
    var padded := if |days| < 7 then days + seq(7 - |days|, _ => '0') else days;
    var taken := padded[..7];
    seq(7, i requires 0 <= i < 7 => taken[i] == '1')
  }

  /** `timerId + index`: the string behind the slot's request code. */
  function SlotKey(timerId: string, index: int): (key: string)
    requires 0 <= index < 7
    ensures |key| == |timerId| + 1 && key[..|timerId|] == timerId
    ensures key[|timerId|] == DigitChar(index)
  {
    timerId + IntToString(index)
  }

  /** The timer and weekday index a slot key was made from, if any. */
  function SlotOwner(key: string): (r: Option<(string, int)>)
    ensures r.Some? ==> 0 <= r.value.1 < 7
  {
    if |key| >= 1 && '0' <= key[|key| - 1] <= '6'
    then Some((key[..|key| - 1], DigitValue(key[|key| - 1])))
    else None
  }

  /** Slot keys are decoded back to their (timer id, index) pair, and only
      slot keys decode to that pair: distinct pairs give distinct keys. */
  lemma SlotKeyRoundTrip(timerId: string, index: int)
    requires 0 <= index < 7
    ensures SlotOwner(SlotKey(timerId, index)) == Some((timerId, index))
    ensures forall key :: SlotOwner(key) == Some((timerId, index)) <==> key == SlotKey(timerId, index)
  {
    var k := SlotKey(timerId, index);
    assert k[..|k| - 1] == timerId;
    forall key | SlotOwner(key) == Some((timerId, index))
      ensures key == k
    {
      assert key[..|key| - 1] == timerId;
      assert key == key[..|key| - 1] + [key[|key| - 1]];
    }
  }

  lemma SlotKeyInjective(a: string, i: int, b: string, j: int)
    requires 0 <= i < 7 && 0 <= j < 7
    ensures SlotKey(a, i) == SlotKey(b, j) <==> a == b && i == j
  {
    SlotKeyRoundTrip(a, i);
    SlotKeyRoundTrip(b, j);
  }

  /** The key belongs to one of the seven slots of `timerId`. */
  predicate OwnedBy(key: string, timerId: string) {
    SlotOwner(key).Some? && SlotOwner(key).value.0 == timerId
  }

  /** The key is a slot of `timerId` with index below `n` whose day is flagged. */
  predicate ArmsSlot(key: string, timerId: string, config: TimerConfig, n: int) {
    OwnedBy(key, timerId) && SlotOwner(key).value.1 < n && NormalizeMask(config.days)[SlotOwner(key).value.1]
  }

  /** The extras `scheduleTimer` attaches to slot `index`. */
  function SlotExtras(timerId: string, index: int, config: TimerConfig): Extras
    requires 0 <= index < 7
  {
    Extras(Some(config.title), Some(config.text), config.image,
           Some(ArgbOf(config.color)), Some(HashCode(SlotKey(timerId, index))), Some(timerId))
  }

  /** The alarm `scheduleTimer` registers for slot `index`: the weekday's
      next trigger, carrying a snapshot of the config. */
  function SlotAlarm(timerId: string, index: int, config: TimerConfig, now: int): (a: Alarm)
    requires 0 <= index < 7
  {
    Alarm(NextTrigger(index + 1, config.time, now), SlotExtras(timerId, index, config))
  }

  /** Going from indices below `n - 1` to indices below `n` adds exactly
      slot `n - 1`, when its day is flagged. */
  lemma ArmsSlotStep(timerId: string, config: TimerConfig, n: int)
    requires 1 <= n <= 7
    ensures forall key :: ArmsSlot(key, timerId, config, n) <==>
      ArmsSlot(key, timerId, config, n - 1) ||
      (NormalizeMask(config.days)[n - 1] && key == SlotKey(timerId, n - 1))
  {
    SlotKeyRoundTrip(timerId, n - 1);
  }

  /** The alarm table after `scheduleTimer` has handled indices `0 .. n-1`. */
  function ArmUpTo(alarms: map<string, Alarm>, timerId: string, config: TimerConfig, now: int, n: int)
    : (r: map<string, Alarm>)
    requires 0 <= n <= 7
    ensures forall key :: key in r <==> key in alarms || ArmsSlot(key, timerId, config, n)
    ensures forall key :: key in r && ArmsSlot(key, timerId, config, n) ==>
      r[key] == SlotAlarm(timerId, SlotOwner(key).value.1, config, now)
    ensures forall key :: key in alarms && !ArmsSlot(key, timerId, config, n) ==> r[key] == alarms[key]
    decreases n
  {
    if n == 0 then alarms
    else
      var prev := ArmUpTo(alarms, timerId, config, now, n - 1);
      ArmsSlotStep(timerId, config, n);
      SlotKeyRoundTrip(timerId, n - 1);
      if NormalizeMask(config.days)[n - 1]
      then prev[SlotKey(timerId, n - 1) := SlotAlarm(timerId, n - 1, config, now)]
      else prev
  }

  /** The alarm table after a completed `scheduleTimer(timerId, config)`. */
  function Scheduled(alarms: map<string, Alarm>, timerId: string, config: TimerConfig, now: int)
    : map<string, Alarm>
  {
    ArmUpTo(alarms, timerId, config, now, 7)
  }

  /** The table after `scheduleTimer` when exact alarms are or are not permitted. */
  function AfterSchedule(alarms: map<string, Alarm>, permitted: bool, timerId: string, config: TimerConfig, now: int)
    : map<string, Alarm>
  {
    if permitted then Scheduled(alarms, timerId, config, now) else alarms
  }

  /** Slot by slot: every flagged weekday is armed with its trigger and
      payload (replacing any earlier entry), the unflagged weekdays of this
      timer keep whatever they had, and no other key changes. */
  lemma ScheduledSlots(alarms: map<string, Alarm>, timerId: string, config: TimerConfig, now: int)
    ensures forall i :: 0 <= i < 7 && NormalizeMask(config.days)[i] ==>
      SlotKey(timerId, i) in Scheduled(alarms, timerId, config, now) &&
      Scheduled(alarms, timerId, config, now)[SlotKey(timerId, i)] == SlotAlarm(timerId, i, config, now)
    ensures forall i :: 0 <= i < 7 && !NormalizeMask(config.days)[i] ==>
      (SlotKey(timerId, i) in Scheduled(alarms, timerId, config, now) <==> SlotKey(timerId, i) in alarms)
    ensures forall key :: !ArmsSlot(key, timerId, config, 7) ==>
      (key in Scheduled(alarms, timerId, config, now) <==> key in alarms) &&
      (key in alarms ==> Scheduled(alarms, timerId, config, now)[key] == alarms[key])
  {
    forall i | 0 <= i < 7 {
      SlotKeyRoundTrip(timerId, i);
    }
  }

  /** Scheduling the same config twice in a row gives the same table as
      scheduling it once: each slot holds a single registration. */
  lemma ScheduleIdempotent(alarms: map<string, Alarm>, timerId: string, config: TimerConfig, now: int)
    ensures Scheduled(Scheduled(alarms, timerId, config, now), timerId, config, now)
         == Scheduled(alarms, timerId, config, now)
  {
    var once := Scheduled(alarms, timerId, config, now);
    var twice := Scheduled(once, timerId, config, now);
    assert twice.Keys == once.Keys;
    forall key | key in once
      ensures twice[key] == once[key]
    {
    }
  }

  /** The seven slot keys of a timer. */
  function SlotKeys(timerId: string): (keys: set<string>)
    ensures forall key :: key in keys <==> OwnedBy(key, timerId)
  {
    forall i | 0 <= i < 7 {
      SlotKeyRoundTrip(timerId, i);
    }
    set i | 0 <= i < 7 :: SlotKey(timerId, i)
  }

  /** The alarm table after `cancelTimer(timerId)`. */
  function Cancelled(alarms: map<string, Alarm>, timerId: string): (r: map<string, Alarm>)
    ensures forall key :: key in r <==> key in alarms && !OwnedBy(key, timerId)
    ensures forall key :: key in r ==> r[key] == alarms[key]
  {
    alarms - SlotKeys(timerId)
  }

  /** Cancelling twice is the same as cancelling once; slots that were
      never armed are simply absent before and after. */
  lemma CancelIdempotent(alarms: map<string, Alarm>, timerId: string)
    ensures Cancelled(Cancelled(alarms, timerId), timerId) == Cancelled(alarms, timerId)
  {
  }

  /** After cancelling, none of the timer's seven slots is armed, and every
      slot of every other timer is exactly as it was. */
  lemma CancelledSlots(alarms: map<string, Alarm>, timerId: string)
    ensures forall i :: 0 <= i < 7 ==> SlotKey(timerId, i) !in Cancelled(alarms, timerId)
    ensures forall other, i :: other != timerId && 0 <= i < 7 ==>
      (SlotKey(other, i) in Cancelled(alarms, timerId) <==> SlotKey(other, i) in alarms) &&
      (SlotKey(other, i) in alarms ==> Cancelled(alarms, timerId)[SlotKey(other, i)] == alarms[SlotKey(other, i)])
  {
    forall i | 0 <= i < 7 {
      SlotKeyRoundTrip(timerId, i);
    }
    forall other, i | other != timerId && 0 <= i < 7 {
      SlotKeyRoundTrip(other, i);
    }
  }

  /** Cancel followed by schedule (the save and enable sequence): exactly
      the flagged weekdays of the timer are armed afterwards, each with its
      next trigger and payload, and every key outside the timer's slots is
      unchanged. */
  lemma CancelThenSchedule(alarms: map<string, Alarm>, timerId: string, config: TimerConfig, now: int)
    ensures forall i :: 0 <= i < 7 ==>
      (SlotKey(timerId, i) in Scheduled(Cancelled(alarms, timerId), timerId, config, now) <==>
       NormalizeMask(config.days)[i])
    ensures forall i :: 0 <= i < 7 && NormalizeMask(config.days)[i] ==>
      Scheduled(Cancelled(alarms, timerId), timerId, config, now)[SlotKey(timerId, i)]
        == SlotAlarm(timerId, i, config, now)
    ensures forall key :: !OwnedBy(key, timerId) ==>
      (key in Scheduled(Cancelled(alarms, timerId), timerId, config, now) <==> key in alarms) &&
      (key in alarms ==> Scheduled(Cancelled(alarms, timerId), timerId, config, now)[key] == alarms[key])
  {
    CancelledSlots(alarms, timerId);
    ScheduledSlots(Cancelled(alarms, timerId), timerId, config, now);
  }

  /** `scheduleTimer`. For each weekday flagged in the normalised mask it
      computes the slot's request code, trigger and extras; if exact alarms
      are not permitted it asks for the permission and returns before
      registering anything; otherwise it sets the exact alarm, replacing the
      slot's previous registration. The capability does not change during
      the call, so the call arms either every flagged weekday or none. */
  method ScheduleTimer(dev: Device, timerId: string, config: TimerConfig, now: int)
    returns (askedForPermission: bool)
    modifies dev`alarms
    ensures dev.ExactAlarmsPermitted() ==>
      dev.alarms == Scheduled(old(dev.alarms), timerId, config, now) && !askedForPermission
    ensures !dev.ExactAlarmsPermitted() ==>
      dev.alarms == old(dev.alarms) && askedForPermission == (true in NormalizeMask(config.days))
  {
    var days := NormalizeMask(config.days);
    var index := 0;
    while index < 7
      invariant 0 <= index <= 7
      invariant dev.ExactAlarmsPermitted() ==>
        dev.alarms == ArmUpTo(old(dev.alarms), timerId, config, now, index)
      invariant !dev.ExactAlarmsPermitted() ==>
        dev.alarms == old(dev.alarms) && true !in days[..index]
    {
      if days[index] {
        var key := SlotKey(timerId, index);
        var requestCode := HashCode(key);
        var trigger := NextTrigger(index + 1, config.time, now);
        var extras := Extras(Some(config.title), Some(config.text), config.image,
                             Some(ArgbOf(config.color)), Some(requestCode), Some(timerId));
        if dev.sdkInt >= VersionS && !dev.exactAlarmsAllowed {
          assert days[index];
          return true;
        }
        dev.alarms := dev.alarms[key := Alarm(trigger, extras)];
      }
      assert days[..index + 1] == days[..index] + [days[index]];
      index := index + 1;
    }
    assert days[..7] == days;
    return false;
  }

  /** `cancelTimer`: for each index 0..6 it cancels the alarm under that
      slot's key, whether or not one is armed. */
  method CancelTimer(dev: Device, timerId: string)
    modifies dev`alarms
    ensures dev.alarms == Cancelled(old(dev.alarms), timerId)
  {
    for index := 0 to 7
      invariant dev.alarms == old(dev.alarms) - (set j | 0 <= j < index :: SlotKey(timerId, j))
    {
      var key := SlotKey(timerId, index);
      assert (set j | 0 <= j < index + 1 :: SlotKey(timerId, j))
          == (set j | 0 <= j < index :: SlotKey(timerId, j)) + {key};
      dev.alarms := dev.alarms - {key};
    }
    assert (set j | 0 <= j < 7 :: SlotKey(timerId, j)) == SlotKeys(timerId);
  }

  /** The engine's invariant between edits: a slot of timer `id` is armed
      exactly when `id` is stored, switched on, and flags that weekday. */
  ghost predicate InSync(timers: map<string, TimerConfig>, alarms: map<string, Alarm>) {
    forall id, i :: 0 <= i < 7 ==>
      (SlotKey(id, i) in alarms <==> id in timers && timers[id].on && NormalizeMask(timers[id].days)[i])
  }
}
