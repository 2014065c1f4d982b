/** `AlarmReceiver.onReceive`: the handler that runs when an exact alarm
    fires. It shows the alert from the payload snapshot, then re-reads the
    stored timer and re-arms it when it is still switched on. */
module AlarmReceiver {
  import opened Wrappers
  import opened Text
  import opened Types
  import opened AlarmScheduler

  /** `0xFF000000.toInt()`: opaque black, the colour used when the payload has none. */
  const DefaultColor: int := ToInt32(0xFF00_0000)
  /** The notification id used when the payload has no request code. */
  const DefaultHash: int := 1001

  /** The alert shown for a payload that carries both title and text. */
  function AlertFor(extras: Extras): Notification
    requires extras.title.Some? && extras.text.Some?
  {
    Notification(extras.title.value, extras.text.value, extras.image,
                 extras.color.GetOr(DefaultColor), extras.hash.GetOr(DefaultHash))
  }

  /** The stored timer the handler re-arms, if any: the payload's timer id
      must be present in the loaded store and that timer must be on. */
  function RearmTarget(extras: Extras, timers: map<string, TimerConfig>): (r: Option<string>)
    ensures r.Some? <==> extras.timerId.Some? && extras.timerId.value in timers && timers[extras.timerId.value].on
    ensures r.Some? ==> r == extras.timerId
  {
    match extras.timerId
    case None => None
    case Some(id) => if id in timers && timers[id].on then Some(id) else None
  }

  method OnReceive(dev: Device, extras: Extras, now: int) returns (outcome: Outcome)
    modifies dev`alarms, dev`shown
    ensures extras.title.None? || extras.text.None? ==>
      dev.shown == old(dev.shown) && dev.alarms == old(dev.alarms) && outcome == Finished
    ensures extras.title.Some? && extras.text.Some? ==>
      dev.shown == old(dev.shown) + [AlertFor(extras)] &&
      outcome == (if dev.timersFile.Unreadable? then Threw else Finished)
    ensures extras.title.Some? && extras.text.Some? && dev.timersFile.Unreadable? ==>
      dev.alarms == old(dev.alarms)
    ensures extras.title.Some? && extras.text.Some? && !dev.timersFile.Unreadable? ==>
      var timers := LoadTimers(dev.timersFile).value;
      var target := RearmTarget(extras, timers);
      dev.alarms == if target.None? then old(dev.alarms)
                    else AfterSchedule(old(dev.alarms), dev.ExactAlarmsPermitted(), target.value, timers[target.value], now)
  {
    if extras.title.None? || extras.text.None? {
      return Finished;
    }
    var title := extras.title.value;
    var text := extras.text.value;
    var image := extras.image;
    var color := extras.color.GetOr(DefaultColor);
    var hash := extras.hash.GetOr(DefaultHash);
    var timerId := extras.timerId;

    dev.shown := dev.shown + [Notification(title, text, image, color, hash)];

    var loaded := LoadTimers(dev.timersFile);
    if loaded.None? {
      return Threw;
    }
    var timers := loaded.value;
    if timerId.None? || timerId.value !in timers {
      return Finished;
    }
    var timer := timers[timerId.value];
    if timer.on {
      var _ := ScheduleTimer(dev, timerId.value, timer, now);
    }
    return Finished;
  }

  /** One slot fires (the facility drops it) and the handler runs for its
      payload: with exact alarms permitted, the table is back in sync with
      the store, whether the timer is still on, was switched off or was
      deleted. */
  lemma FiringKeepsSync(timers: map<string, TimerConfig>, alarms: map<string, Alarm>,
                        timerId: string, index: int, now: int)
    requires 0 <= index < 7
    requires InSync(timers, alarms)
    ensures var fired := alarms - {SlotKey(timerId, index)};
      InSync(timers, if timerId in timers && timers[timerId].on
                     then Scheduled(fired, timerId, timers[timerId], now) else fired)
  {
    var key := SlotKey(timerId, index);
    var fired := alarms - {key};
    SlotKeyRoundTrip(timerId, index);
    if timerId in timers && timers[timerId].on {
      var after := Scheduled(fired, timerId, timers[timerId], now);
      ScheduledSlots(fired, timerId, timers[timerId], now);
      forall id, i | 0 <= i < 7
        ensures SlotKey(id, i) in after <==>
          id in timers && timers[id].on && NormalizeMask(timers[id].days)[i]
      {
        SlotKeyInjective(id, i, timerId, index);
        SlotKeyRoundTrip(id, i);
      }
    } else {
      forall id, i | 0 <= i < 7
        ensures SlotKey(id, i) in fired <==>
          id in timers && timers[id].on && NormalizeMask(timers[id].days)[i]
      {
        SlotKeyInjective(id, i, timerId, index);
      }
    }
  }
}
