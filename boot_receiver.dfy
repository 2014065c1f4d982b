/** `BootReceiver.onReceive`: after a restart, when no exact alarm survives,
    every stored timer that is on is scheduled again. The background thread
    is modelled as running its body in sequence. */
module BootReceiver {
  import opened Wrappers
  import opened Types
  import opened AlarmScheduler

  const ActionBootCompleted: string := "android.intent.action.BOOT_COMPLETED"

  /** The key is a flagged slot of a timer in `done` that is stored and on. */
  predicate Rearms(key: string, timers: map<string, TimerConfig>, done: set<string>) {
    SlotOwner(key).Some? &&
    var id := SlotOwner(key).value.0;
    id in done && id in timers && timers[id].on && ArmsSlot(key, id, timers[id], 7)
  }

  /** `after` is `before` with every flagged slot of the enabled timers in
      `done` armed with its next trigger and payload, and nothing else changed. */
  ghost predicate RecoveredFrom(before: map<string, Alarm>, after: map<string, Alarm>,
                                timers: map<string, TimerConfig>, done: set<string>, now: int)
  {
    && (forall key :: key in after <==> key in before || Rearms(key, timers, done))
    && (forall key :: key in after && Rearms(key, timers, done) ==>
          after[key] == SlotAlarm(SlotOwner(key).value.0, SlotOwner(key).value.1,
                                  timers[SlotOwner(key).value.0], now))
    && (forall key :: key in before && !Rearms(key, timers, done) ==> after[key] == before[key])
  }

  /** Scheduling one more enabled timer extends the recovered set by it. */
  lemma RecoveryStep(before: map<string, Alarm>, current: map<string, Alarm>,
                     timers: map<string, TimerConfig>, done: set<string>, id: string, now: int)
    requires id in timers && id !in done
    requires RecoveredFrom(before, current, timers, done, now)
    ensures RecoveredFrom(before, if timers[id].on then Scheduled(current, id, timers[id], now) else current,
                          timers, done + {id}, now)
  {
    forall key {
      RearmsGrow(key, timers, done, id);
    }
  }

  /** Adding `id` to `done` adds exactly its flagged slots, when it is on. */
  lemma RearmsGrow(key: string, timers: map<string, TimerConfig>, done: set<string>, id: string)
    requires id in timers && id !in done
    ensures Rearms(key, timers, done + {id}) <==>
      Rearms(key, timers, done) || (timers[id].on && ArmsSlot(key, id, timers[id], 7))
  {
  }

  /** The receiver. Any other action returns at once. For boot completion
      the pending result is finished exactly once, in the `finally`, whether
      the pass completes or `loadTimers` throws. */
  method OnReceive(dev: Device, action: string, now: int) returns (finishCalls: nat, outcome: Outcome)
    modifies dev`alarms
    ensures action != ActionBootCompleted ==>
      finishCalls == 0 && outcome == Finished && dev.alarms == old(dev.alarms)
    ensures action == ActionBootCompleted ==> finishCalls == 1
    ensures action == ActionBootCompleted ==>
      outcome == (if dev.timersFile.Unreadable? then Threw else Finished)
    ensures action == ActionBootCompleted && (dev.timersFile.Unreadable? || !dev.ExactAlarmsPermitted()) ==>
      dev.alarms == old(dev.alarms)
    ensures action == ActionBootCompleted && !dev.timersFile.Unreadable? && dev.ExactAlarmsPermitted() ==>
      var timers := LoadTimers(dev.timersFile).value;
      RecoveredFrom(old(dev.alarms), dev.alarms, timers, timers.Keys, now)
  {
    finishCalls := 0;
    if action != ActionBootCompleted {
      return 0, Finished;
    }
    // try
    var loaded := LoadTimers(dev.timersFile);
    if loaded.Some? {
      var timers := loaded.value;
      var remaining := timers.Keys;
      ghost var done: set<string> := {};
      while remaining != {}
        invariant remaining + done == timers.Keys && remaining !! done
        invariant dev.ExactAlarmsPermitted() ==> RecoveredFrom(old(dev.alarms), dev.alarms, timers, done, now)
        invariant !dev.ExactAlarmsPermitted() ==> dev.alarms == old(dev.alarms)
        decreases remaining
      {
        var id :| id in remaining;
        var timer := timers[id];
        if dev.ExactAlarmsPermitted() {
          RecoveryStep(old(dev.alarms), dev.alarms, timers, done, id, now);
        }
        if timer.on {
          var _ := ScheduleTimer(dev, id, timer, now);
        }
        remaining := remaining - {id};
        done := done + {id};
      }
      outcome := Finished;
    } else {
      outcome := Threw;
    }
    // finally
    finishCalls := finishCalls + 1;
  }

  /** With exact alarms permitted, a completed pass leaves every enabled
      timer with exactly its flagged weekdays armed on top of what was there,
      and every slot of a disabled or absent timer untouched. */
  lemma RecoveredSlots(before: map<string, Alarm>, after: map<string, Alarm>,
                       timers: map<string, TimerConfig>, now: int)
    requires RecoveredFrom(before, after, timers, timers.Keys, now)
    ensures forall id, i :: id in timers && timers[id].on && 0 <= i < 7 ==>
      (SlotKey(id, i) in after <==> NormalizeMask(timers[id].days)[i] || SlotKey(id, i) in before) &&
      (NormalizeMask(timers[id].days)[i] ==> after[SlotKey(id, i)] == SlotAlarm(id, i, timers[id], now))
    ensures forall id, i :: !(id in timers && timers[id].on) && 0 <= i < 7 ==>
      (SlotKey(id, i) in after <==> SlotKey(id, i) in before) &&
      (SlotKey(id, i) in before ==> after[SlotKey(id, i)] == before[SlotKey(id, i)])
  {
    forall id, i | 0 <= i < 7 {
      SlotKeyRoundTrip(id, i);
    }
  }

  /** Recovery after a restart, when no alarm survived, brings the table
      in sync with the store. */
  lemma RecoveryRestoresSync(timers: map<string, TimerConfig>, after: map<string, Alarm>, now: int)
    requires RecoveredFrom(map[], after, timers, timers.Keys, now)
    ensures InSync(timers, after)
  {
    RecoveredSlots(map[], after, timers, now);
  }
}
