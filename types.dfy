/** The records the engine exchanges, and the platform state it acts on:
    the exact-alarm table, the build level and exact-alarm permission, the
    `timers.json` file, and the notifications shown so far. */
module Types {
  import opened Wrappers
  import opened Text

  type Hour = h: int | 0 <= h < 24
  type Minute = m: int | 0 <= m < 60
  /** Kotlin's `ULong`, used for Compose's packed colour values. */
  type ULong = n: int | 0 <= n < 0x1_0000_0000_0000_0000

  /** A wall-clock time of day (`LocalTime` at minute precision). */
  datatype TimeOfDay = TimeOfDay(hour: Hour, minute: Minute) {
    /** Minutes since midnight. */
    function Minutes(): (m: int)
      ensures 0 <= m < 1440
    {
      hour * 60 + minute
    }
  }

  /** One user-defined weekly timer, as stored in `timers.json`. `days` is
      the weekday mask, Monday first, '1' meaning "fires that day". */
  datatype TimerConfig = TimerConfig(
    title: string,
    text: string,
    time: TimeOfDay,
    days: string,
    color: ULong,
    image: Option<string>,
    on: bool)

  /** The extras of an alarm intent; any of them may be missing. */
  datatype Extras = Extras(
    title: Option<string>,
    text: Option<string>,
    image: Option<string>,
    color: Option<int>,
    hash: Option<int>,
    timerId: Option<string>)

  /** One armed one-shot exact alarm: when it fires and what it carries. */
  datatype Alarm = Alarm(trigger: int, extras: Extras)

  /** An alert handed to the notification helper. */
  datatype Notification = Notification(
    title: string,
    text: string,
    image: Option<string>,
    color: int,
    id: int)

  /** The `timers.json` file: absent, holding a parsable map, or unreadable
      (text that the JSON parser rejects). */
  datatype TimersFile = Missing | Stored(timers: map<string, TimerConfig>) | Unreadable

  /** `loadTimers`: an empty map when the file does not exist, the stored
      map otherwise; None stands for the exception thrown on unreadable text. */
  function LoadTimers(file: TimersFile): (r: Option<map<string, TimerConfig>>)
    ensures r.None? <==> file.Unreadable?
    ensures file.Missing? ==> r == Some(map[])
    ensures file.Stored? ==> r == Some(file.timers)
  {
    match file
    case Missing => Some(map[])
    case Stored(m) => Some(m)
    case Unreadable => None
  }

  /** `Color(value).toArgb()` for an sRGB colour: Compose keeps the ARGB
      word in the upper 32 bits of the packed value. */
  function ArgbOf(color: ULong): (argb: int)
    ensures IsInt32(argb)
  {
    ToInt32(color / TwoTo32)
  }

  /** `Color(argb: Int)` packs the ARGB word into the upper 32 bits of an
      sRGB colour value, and `toArgb()` reads back the same `Int`. */
  lemma ArgbOfPacked(argb: int)
    requires IsInt32(argb)
    ensures 0 <= (argb % TwoTo32) * TwoTo32 < 0x1_0000_0000_0000_0000
    ensures ArgbOf((argb % TwoTo32) * TwoTo32) == argb
  {
    var u := argb % TwoTo32;
    assert (u * TwoTo32) / TwoTo32 == u;
  }

  /** `Build.VERSION_CODES.S`, from which exact alarms need a permission. */
  const VersionS: int := 31

  /** The device state the engine reads and changes. */
  class Device {
    /** Armed exact alarms, keyed by slot key. */
    var alarms: map<string, Alarm>
    /** `Build.VERSION.SDK_INT`. */
    var sdkInt: int
    /** `AlarmManager.canScheduleExactAlarms()`. */
    var exactAlarmsAllowed: bool
    /** The content of `timers.json` in the app's files directory. */
    var timersFile: TimersFile
    /** Every notification shown, oldest first. */
    var shown: seq<Notification>

    /** True when an exact alarm may be set now: always below Android 12,
        otherwise only with the exact-alarm permission. */
    predicate ExactAlarmsPermitted()
      reads this
    {
      sdkInt < VersionS || exactAlarmsAllowed
    }
  }
}
