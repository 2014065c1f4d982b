/** The engine-facing parts of `MainActivity.kt`: the id a settings screen
    works on, its initial form, the weekday toggle, the weekday summary of a
    timer row, and the Save, Delete and ON/OFF handlers with their
    put / persist / cancel / schedule sequences. */
module MainActivity {
  import opened Wrappers
  import opened Text
  import opened Types
  import opened AlarmScheduler

  // ---------------------------------------------------------------------
  // New-id allocation

  /** The numbers that Kotlin's `toIntOrNull()` reads from the keys. */
  function IntKeys(keys: set<string>): set<int> {
    set k | k in keys && ToIntOrNull(k).Some? :: ToIntOrNull(k).value
  }

  /** The numbers the keys spell, with no bound on their size. */
  function IntegerKeys(keys: set<string>): set<int> {
    set k | k in keys && ParseInteger(k).Some? :: ParseInteger(k).value
  }

  /** A key that prints as `n` contributes `n` to the keys' values. */
  lemma SpelledKeyCounts(keys: set<string>, n: int)
    ensures IntToString(n) in keys ==> n in IntegerKeys(keys)
    ensures IntToString(n) in keys && IsInt32(n) ==> n in IntKeys(keys)
  {
    IntToStringRoundTrip(n);
  }

  /** The id of the settings screen exactly as the source computes it: for a
      new timer (`timerId == "0"`), one more than the largest key that
      `toIntOrNull()` accepts (0 if none), in 32-bit `Int` arithmetic. */
  function NewIdAsWritten(timerId: string, keys: set<string>): (id: string)
    ensures timerId != "0" ==> id == timerId
    ensures timerId == "0" && MaxOrNull(IntKeys(keys)).GetOr(0) < IntMax ==> id !in keys
    ensures timerId == "0" && IntKeys(keys) == {} ==> id == "1"
    ensures timerId == "0" ==> ParseInteger(id) == Some(ToInt32(MaxOrNull(IntKeys(keys)).GetOr(0) + 1))
  {
    if timerId == "0" then
      var next := ToInt32(MaxOrNull(IntKeys(keys)).GetOr(0) + 1);
      SpelledKeyCounts(keys, next);
      IntToStringRoundTrip(next);
      IntToString(next)
    else timerId
  }

  /** The keys spelling two `Int` values are read back as exactly those values. */
  lemma IntKeysOfTwo(a: int, b: int)
    requires IsInt32(a) && IsInt32(b)
    ensures IntKeys({IntToString(a), IntToString(b)}) == {a, b}
  {
    IntToStringRoundTrip(a);
    IntToStringRoundTrip(b);
  }

  /** For a new timer the source prints the 32-bit successor of the largest
      `Int` key, so a key holding `Int.MAX_VALUE` makes it `Int.MIN_VALUE`. */
  lemma NewIdAsWrittenIsSuccessor(keys: set<string>, top: int)
    requires MaxOrNull(IntKeys(keys)) == Some(top)
    ensures NewIdAsWritten("0", keys) == IntToString(ToInt32(top + 1))
    ensures top == IntMax ==> ToInt32(top + 1) == IntMin
  {
  }

  /** With keys "2147483647" and "-2147483648" the increment wraps to
      `Int.MIN_VALUE`, and the new timer is given the id of an existing one. */
  lemma NewIdAsWrittenCollides()
    ensures NewIdAsWritten("0", {IntToString(IntMax), IntToString(IntMin)}) == IntToString(IntMin)
    ensures NewIdAsWritten("0", {IntToString(IntMax), IntToString(IntMin)}) in {IntToString(IntMax), IntToString(IntMin)}
  {
    var keys := {IntToString(IntMax), IntToString(IntMin)};
    IntKeysOfTwo(IntMax, IntMin);
    assert MaxOrNull(IntKeys(keys)) == Some(IntMax);
    NewIdAsWrittenIsSuccessor(keys, IntMax);
  }

  /** The id of the settings screen, with the increment done on unbounded
      integers over every key that spells a number: a new timer's id reads
      back as one more than the largest numeric key and is never an
      existing key, and an existing timer keeps its id. */
  function NewId(timerId: string, keys: set<string>): (id: string)
    ensures timerId != "0" ==> id == timerId
    ensures timerId == "0" ==> id !in keys
    ensures timerId == "0" && IntegerKeys(keys) == {} ==> id == "1"
    ensures timerId == "0" ==> ParseInteger(id) == Some(MaxOrNull(IntegerKeys(keys)).GetOr(0) + 1)
  {
    if timerId == "0" then
      var next := MaxOrNull(IntegerKeys(keys)).GetOr(0) + 1;
      SpelledKeyCounts(keys, next);
      IntToStringRoundTrip(next);
      IntToString(next)
    else timerId
  }

  /** The two rules agree whenever every numeric key fits an `Int` and the
      largest one is below `Int.MAX_VALUE`. */
  lemma NewIdAgrees(timerId: string, keys: set<string>)
    requires forall k :: k in keys && ParseInteger(k).Some? ==> IsInt32(ParseInteger(k).value)
    requires MaxOrNull(IntKeys(keys)).GetOr(0) < IntMax
    ensures NewIdAsWritten(timerId, keys) == NewId(timerId, keys)
  {
    assert IntKeys(keys) == IntegerKeys(keys);
  }

  // ---------------------------------------------------------------------
  // The settings form

  /** The editable fields of the settings screen. */
  datatype Form = Form(title: string, text: string, time: TimeOfDay, days: string,
                       color: ULong, image: Option<string>)

  /** `Color.White.value`: white in Compose's packed sRGB form. */
  const WhiteValue: ULong := 0xFFFF_FFFF_0000_0000

  /** The record Save stores: the form's fields, switched on. */
  function SavedConfig(form: Form): (config: TimerConfig)
    ensures config.on
  {
    TimerConfig(form.title, form.text, form.time, form.days, form.color, form.image, true)
  }

  /** The form as the settings screen opens it: the stored fields of an
      existing timer, so that saving it unchanged stores the same record
      switched on; for a new timer, empty texts, the current time, no
      weekday flagged, white and no image. */
  function InitialForm(timers: map<string, TimerConfig>, id: string, clock: TimeOfDay): (form: Form)
    ensures id in timers ==> SavedConfig(form) == timers[id].(on := true)
    ensures id !in timers ==>
      form == Form("", "", clock, "0000000", WhiteValue, None) && true !in NormalizeMask(form.days)
  {
    if id in timers then
      var t := timers[id];
      Form(t.title, t.text, t.time, t.days, t.color, t.image)
    else
      Form("", "", clock, "0000000", WhiteValue, None)
  }

  /** Reopening the settings screen of a saved timer shows the form that
      was saved: Save stores every field of the form. */
  lemma SaveThenReopen(timers: map<string, TimerConfig>, id: string, form: Form, clock: TimeOfDay)
    ensures InitialForm(timers[id := SavedConfig(form)], id, clock) == form
  {
  }

  /** A weekday button: position `x` becomes '0' if it was '1' and '1'
      otherwise; the length and every other position stay as they were. */
  function ToggleDay(days: string, x: int): (r: string)
    requires 0 <= x < |days|
    ensures |r| == |days|
    ensures r[x] == (if days[x] == '1' then '0' else '1')
    ensures forall j :: 0 <= j < |days| && j != x ==> r[j] == days[j]
  {
    if days[x] == '1' then days[..x] + "0" + days[x + 1..]
    else days[..x] + "1" + days[x + 1..]
  }

  /** Toggling weekday `x` flips exactly that weekday of the normalised
      mask, and toggling a '0'/'1' position twice restores the mask. */
  lemma ToggleDayFlipsMask(days: string, x: int)
    requires 0 <= x < |days| && x < 7
    ensures NormalizeMask(ToggleDay(days, x))[x] == !NormalizeMask(days)[x]
    ensures forall j :: 0 <= j < 7 && j != x ==> NormalizeMask(ToggleDay(days, x))[j] == NormalizeMask(days)[j]
    ensures days[x] == '0' || days[x] == '1' ==> ToggleDay(ToggleDay(days, x), x) == days
  {
    var once := ToggleDay(days, x);
    if days[x] == '0' || days[x] == '1' {
      var twice := ToggleDay(once, x);
      assert forall j :: 0 <= j < |days| ==> twice[j] == days[j];
    }
  }

  // ---------------------------------------------------------------------
  // The weekday summary of a timer row

  /** The two-letter weekday names, Monday first. */
  const DayNames: seq<string> := ["Mo", "Tu", "We", "Th", "Fr", "Sa", "Su"]

  /** The labels the row appends, each name followed by ", ". */
  const DayLabels: seq<string> := ["Mo, ", "Tu, ", "We, ", "Th, ", "Fr, ", "Sa, ", "Su, "]

  lemma DayLabelIsName(x: int)
    requires 0 <= x < 7
    ensures DayLabels[x] == DayNames[x] + ", "
  {
    if x == 0 {} else if x == 1 {} else if x == 2 {} else if x == 3 {}
    else if x == 4 {} else if x == 5 {} else {}
  }

  /** The weekdays below `n` whose mask position holds '1', in order. */
  function FlaggedDays(days: string, n: int): (r: seq<int>)
    requires 0 <= n <= |days|
    ensures forall k :: 0 <= k < |r| ==> 0 <= r[k] < n && days[r[k]] == '1'
    ensures forall k, l :: 0 <= k < l < |r| ==> r[k] < r[l]
    ensures forall x :: 0 <= x < n && days[x] == '1' ==> x in r
  {
    if n == 0 then []
    else if days[n - 1] == '1' then FlaggedDays(days, n - 1) + [n - 1]
    else FlaggedDays(days, n - 1)
  }

  /** The `k`-th listed weekday, with a line break in front of the fifth. */
  function Entry(k: int, d: int): (e: string)
    requires 0 <= d < 7
    ensures |e| == if k == 4 then 3 else 2
  {
    DayNameLength(d);
    (if k == 4 then "\n" else "") + DayNames[d]
  }

  lemma DayNameLength(d: int)
    requires 0 <= d < 7
    ensures |DayNames[d]| == 2
  {
    if d == 0 {} else if d == 1 {} else if d == 2 {} else if d == 3 {}
    else if d == 4 {} else if d == 5 {} else {}
  }

  /** The listed weekdays as entries. */
  function Entries(flagged: seq<int>): (r: seq<string>)
    requires forall k :: 0 <= k < |flagged| ==> 0 <= flagged[k] < 7
    ensures |r| == |flagged|
    ensures forall k :: 0 <= k < |r| ==> r[k] == Entry(k, flagged[k])
  {
    if flagged == [] then []
    else Entries(flagged[..|flagged| - 1]) + [Entry(|flagged| - 1, flagged[|flagged| - 1])]
  }

  /** Entries separated by ", ". */
  function JoinComma(entries: seq<string>): string {
    if entries == [] then ""
    else if |entries| == 1 then entries[0]
    else JoinComma(entries[..|entries| - 1]) + ", " + entries[|entries| - 1]
  }

  /** The row text for a mask: the names of its flagged weekdays, comma
      separated, broken onto a second line before the fifth one. */
  function Summary(days: string): string
    requires |days| >= 7
  {
    JoinComma(Entries(FlaggedDays(days, 7)))
  }

  /** Entries each followed by ", ": the builder's content before trimming. */
  function Terminated(entries: seq<string>): string {
    if entries == [] then ""
    else Terminated(entries[..|entries| - 1]) + entries[|entries| - 1] + ", "
  }

  lemma {:induction false} TerminatedLength(flagged: seq<int>)
    requires forall k :: 0 <= k < |flagged| ==> 0 <= flagged[k] < 7
    ensures |Terminated(Entries(flagged))| == 4 * |flagged| + (if |flagged| >= 5 then 1 else 0)
  {
    if flagged != [] {
      var init := flagged[..|flagged| - 1];
      var last := flagged[|flagged| - 1];
      assert flagged == init + [last];
      EntriesSnoc(init, last);
      TerminatedSnoc(Entries(init), Entry(|init|, last));
      TerminatedLength(init);
    }
  }

  lemma {:induction false} TerminatedIsJoined(entries: seq<string>)
    requires entries != []
    ensures |Terminated(entries)| >= 2
    ensures Terminated(entries)[..|Terminated(entries)| - 2] == JoinComma(entries)
  {
    var init := entries[..|entries| - 1];
    if init != [] {
      TerminatedIsJoined(init);
    }
  }

  lemma EntriesSnoc(flagged: seq<int>, d: int)
    requires forall k :: 0 <= k < |flagged| ==> 0 <= flagged[k] < 7
    requires 0 <= d < 7
    ensures Entries(flagged + [d]) == Entries(flagged) + [Entry(|flagged|, d)]
  {
    assert (flagged + [d])[..|flagged|] == flagged;
  }

  lemma TerminatedSnoc(entries: seq<string>, e: string)
    ensures Terminated(entries + [e]) == Terminated(entries) + e + ", "
  {
    assert (entries + [e])[..|entries|] == entries;
  }

  /** A flagged weekday adds its entry and ", " to the builder's content. */
  lemma FlaggedStep(days: string, x: int)
    requires 0 <= x < 7 <= |days| && days[x] == '1'
    ensures Terminated(Entries(FlaggedDays(days, x + 1)))
         == Terminated(Entries(FlaggedDays(days, x))) + Entry(|FlaggedDays(days, x)|, x) + ", "
  {
    var before := FlaggedDays(days, x);
    assert FlaggedDays(days, x + 1) == before + [x];
    EntriesSnoc(before, x);
    TerminatedSnoc(Entries(before), Entry(|before|, x));
  }

  /** The source's guard holds exactly before the fifth listed weekday. */
  lemma BreakStep(sb: string, n: nat, x: int, grown: string, name: string)
    requires 0 <= x < 7
    requires |sb| == 4 * n + (if n >= 5 then 1 else 0)
    requires grown == if |sb| + 1 % 17 == 17 then sb + "\n" else sb
    requires name == DayNames[x] + ", "
    ensures grown + name == sb + Entry(n, x) + ", "
  {
    var nl := if n == 4 then "\n" else "";
    assert grown == sb + nl;
    SeqAssoc(sb, nl, DayNames[x], ", ");
  }

  /** One flagged weekday extends the builder by its entry and ", ". */
  lemma SummaryStep(days: string, x: int, sb: string, grown: string, name: string)
    requires 0 <= x < 7 <= |days| && days[x] == '1'
    requires sb == Terminated(Entries(FlaggedDays(days, x)))
    requires grown == if |sb| + 1 % 17 == 17 then sb + "\n" else sb
    requires name == DayNames[x] + ", "
    ensures grown + name == Terminated(Entries(FlaggedDays(days, x + 1)))
  {
    var before := FlaggedDays(days, x);
    TerminatedLength(before);
    BreakStep(sb, |before|, x, grown, name);
    FlaggedStep(days, x);
  }

  lemma SeqAssoc(a: string, b: string, c: string, d: string)
    ensures (a + b) + (c + d) == (a + (b + c)) + d
  {
  }

  /** Deleting the trailing ", " (when the builder holds more than two
      characters) leaves the summary. */
  lemma TrimmedIsSummary(days: string, sb: string)
    requires |days| >= 7
    requires sb == Terminated(Entries(FlaggedDays(days, 7)))
    ensures |sb| > 2 ==> sb[..|sb| - 2] == Summary(days)
    ensures |sb| <= 2 ==> sb == Summary(days)
  {
    var entries := Entries(FlaggedDays(days, 7));
    assert Summary(days) == JoinComma(entries);
    if entries == [] {
      assert sb == "" == JoinComma(entries);
    } else {
      TerminatedIsJoined(entries);
      assert |sb| > 2 by {
        TerminatedLength(FlaggedDays(days, 7));
      }
    }
  }

  /** The summary loop of the timer row: for each flagged weekday it
      appends "\n" when the builder's length satisfies the source's guard
      `length + 1 % 17 == 17` (that is, `length == 16`), then the name and
      ", "; at the end it deletes the last two characters when there are
      more than two. The mask must have at least seven characters. */
  method WeekdaySummary(days: string) returns (summary: string)
    requires |days| >= 7
    ensures summary == Summary(days)
  {
    var sb := "";
    for x := 0 to 7
      invariant sb == Terminated(Entries(FlaggedDays(days, x)))
    {
      if (days[x] as int) - ('0' as int) == 1 {
        var grown := sb;
        if |sb| + 1 % 17 == 17 {
          grown := sb + "\n";
        }
        DayLabelIsName(x);
        SummaryStep(days, x, sb, grown, DayLabels[x]);
        sb := grown + DayLabels[x];
      } else {
        assert FlaggedDays(days, x + 1) == FlaggedDays(days, x);
      }
    }
    TrimmedIsSummary(days, sb);
    if |sb| > 2 {
      sb := sb[..|sb| - 1];
      sb := sb[..|sb| - 1];
    }
    summary := sb;
  }

  /** The row shows an empty summary exactly when the timer arms no weekday. */
  lemma SummaryEmptyIff(days: string)
    requires |days| >= 7
    ensures Summary(days) == "" <==> true !in NormalizeMask(days)
  {
    var flagged := FlaggedDays(days, 7);
    var mask := NormalizeMask(days);
    if flagged != [] {
      var x := flagged[0];
      assert mask[x];
      var sb := Terminated(Entries(flagged));
      TrimmedIsSummary(days, sb);
      TerminatedLength(flagged);
    }
  }

  /** A line break occurs in a joined list exactly when one entry holds one. */
  lemma {:induction false} BreakInJoin(entries: seq<string>)
    ensures '\n' in JoinComma(entries) <==> exists k :: 0 <= k < |entries| && '\n' in entries[k]
  {
    if |entries| > 1 {
      var init := entries[..|entries| - 1];
      BreakInJoin(init);
      var last := entries[|entries| - 1];
      assert JoinComma(entries) == (JoinComma(init) + ", ") + last;
      assert '\n' in JoinComma(init) + ", " <==> '\n' in JoinComma(init);
      if exists k :: 0 <= k < |entries| && '\n' in entries[k] {
        var k :| 0 <= k < |entries| && '\n' in entries[k];
        if k < |init| {
          assert init[k] == entries[k];
        }
      }
      assert forall k :: 0 <= k < |init| ==> init[k] == entries[k];
    }
  }

  lemma NoBreakInName(d: int)
    requires 0 <= d < 7
    ensures '\n' !in DayNames[d]
  {
    if d == 0 {} else if d == 1 {} else if d == 2 {} else if d == 3 {}
    else if d == 4 {} else if d == 5 {} else {}
  }

  /** The guard `length + 1 % 17 == 17` breaks the line once, before the
      fifth listed weekday: the summary has a line break exactly when five
      or more weekdays are flagged. */
  lemma SummaryBreaksAtFifth(days: string)
    requires |days| >= 7
    ensures '\n' in Summary(days) <==> |FlaggedDays(days, 7)| >= 5
  {
    var flagged := FlaggedDays(days, 7);
    var entries := Entries(flagged);
    BreakInJoin(entries);
    forall k | 0 <= k < |entries|
      ensures '\n' in entries[k] <==> k == 4
    {
      NoBreakInName(flagged[k]);
      assert entries[k] == (if k == 4 then "\n" else "") + DayNames[flagged[k]];
    }
    if |flagged| >= 5 {
      assert '\n' in entries[4];
    }
  }

  // ---------------------------------------------------------------------
  // Save, Delete and the ON/OFF toggle

  /** The in-memory timer map the screens share; handlers update it in place. */
  class TimerTable {
    var entries: map<string, TimerConfig>

    constructor(loaded: map<string, TimerConfig>)
      ensures entries == loaded
    {
      entries := loaded;
    }
  }

  /** `saveTimers`: the whole map is written to `timers.json`. */
  method SaveTimers(dev: Device, table: TimerTable)
    modifies dev`timersFile
    ensures dev.timersFile == Stored(table.entries)
  {
    dev.timersFile := Stored(table.entries);
  }

  /** Save: store the form switched on under the screen's id, persist,
      cancel the id's slots, then schedule the stored record. */
  method OnSave(dev: Device, table: TimerTable, id: string, form: Form, now: int)
    returns (askedForPermission: bool)
    modifies dev`alarms, dev`timersFile, table
    ensures table.entries == old(table.entries)[id := SavedConfig(form)]
    ensures dev.timersFile == Stored(table.entries)
    ensures dev.alarms == AfterSchedule(Cancelled(old(dev.alarms), id), dev.ExactAlarmsPermitted(),
                                        id, SavedConfig(form), now)
    ensures askedForPermission == (!dev.ExactAlarmsPermitted() && true in NormalizeMask(form.days))
  {
    table.entries := table.entries[id := SavedConfig(form)];
    SaveTimers(dev, table);
    CancelTimer(dev, id);
    askedForPermission := ScheduleTimer(dev, id, table.entries[id], now);
  }

  /** Delete: an existing timer (`timerId != "0"`) is removed from the map,
      the map is persisted, and the screen's id has its slots cancelled. */
  method OnDelete(dev: Device, table: TimerTable, timerId: string, id: string)
    modifies dev`alarms, dev`timersFile, table
    ensures table.entries == if timerId != "0" then old(table.entries) - {timerId} else old(table.entries)
    ensures dev.timersFile == Stored(table.entries)
    ensures dev.alarms == Cancelled(old(dev.alarms), id)
  {
    if timerId != "0" {
      table.entries := table.entries - {timerId};
    }
    SaveTimers(dev, table);
    CancelTimer(dev, id);
  }

  /** The ON/OFF button of a timer row. `shownTimer` is the record the row
      was composed from and `isToggled` the row's current switch state. The
      switch flips, the record is stored with the new state and persisted;
      switching on cancels and reschedules, switching off only cancels. */
  method OnToggle(dev: Device, table: TimerTable, timerId: string, shownTimer: TimerConfig,
                  isToggled: bool, now: int)
    returns (toggled: bool, askedForPermission: bool)
    modifies dev`alarms, dev`timersFile, table
    ensures toggled == !isToggled
    ensures table.entries == old(table.entries)[timerId := shownTimer.(on := toggled)]
    ensures dev.timersFile == Stored(table.entries)
    ensures dev.alarms == if toggled
      then AfterSchedule(Cancelled(old(dev.alarms), timerId), dev.ExactAlarmsPermitted(),
                         timerId, shownTimer.(on := true), now)
      else Cancelled(old(dev.alarms), timerId)
    ensures askedForPermission == (toggled && !dev.ExactAlarmsPermitted() && true in NormalizeMask(shownTimer.days))
  {
    toggled := !isToggled;
    table.entries := table.entries[timerId := shownTimer.(on := toggled)];
    SaveTimers(dev, table);
    if toggled {
      CancelTimer(dev, timerId);
      askedForPermission := ScheduleTimer(dev, timerId, table.entries[timerId], now);
    } else {
      CancelTimer(dev, timerId);
      askedForPermission := false;
    }
  }

  /** Storing `config` under `id` and then cancelling the id's slots (and
      scheduling them again when `config` is on) keeps the alarm table in
      sync with the store: the Save sequence, and both directions of the
      toggle. */
  lemma ReplaceKeepsSync(timers: map<string, TimerConfig>, alarms: map<string, Alarm>,
                         id: string, config: TimerConfig, now: int)
    requires InSync(timers, alarms)
    ensures InSync(timers[id := config],
                   if config.on then Scheduled(Cancelled(alarms, id), id, config, now)
                   else Cancelled(alarms, id))
  {
    var after := if config.on then Scheduled(Cancelled(alarms, id), id, config, now)
                 else Cancelled(alarms, id);
    CancelledSlots(alarms, id);
    CancelThenSchedule(alarms, id, config, now);
    forall other, i | 0 <= i < 7
      ensures SlotKey(other, i) in after <==>
        other in timers[id := config] && timers[id := config][other].on &&
        NormalizeMask(timers[id := config][other].days)[i]
    {
      SlotKeyRoundTrip(other, i);
    }
  }

  /** With exact alarms permitted, Save keeps the table in sync with the store. */
  lemma SaveKeepsSync(timers: map<string, TimerConfig>, alarms: map<string, Alarm>,
                      id: string, form: Form, now: int)
    requires InSync(timers, alarms)
    ensures InSync(timers[id := SavedConfig(form)],
                   AfterSchedule(Cancelled(alarms, id), true, id, SavedConfig(form), now))
  {
    ReplaceKeepsSync(timers, alarms, id, SavedConfig(form), now);
  }

  /** With exact alarms permitted, the toggle keeps the table in sync with
      the store, whichever way it switches. */
  lemma ToggleKeepsSync(timers: map<string, TimerConfig>, alarms: map<string, Alarm>,
                        timerId: string, shownTimer: TimerConfig, toggled: bool, now: int)
    requires InSync(timers, alarms)
    ensures InSync(timers[timerId := shownTimer.(on := toggled)],
                   if toggled then AfterSchedule(Cancelled(alarms, timerId), true, timerId, shownTimer.(on := true), now)
                   else Cancelled(alarms, timerId))
  {
    ReplaceKeepsSync(timers, alarms, timerId, shownTimer.(on := toggled), now);
  }

  /** Delete keeps the table in sync when the screen's id is the one the
      corrected rule gives: an existing timer loses its record and its
      slots, and a new screen's id owns nothing to cancel. */
  lemma DeleteKeepsSync(timers: map<string, TimerConfig>, alarms: map<string, Alarm>, timerId: string)
    requires InSync(timers, alarms)
    ensures var id := NewId(timerId, timers.Keys);
      InSync(if timerId != "0" then timers - {timerId} else timers, Cancelled(alarms, id))
  {
    var id := NewId(timerId, timers.Keys);
    var kept := if timerId != "0" then timers - {timerId} else timers;
    CancelledSlots(alarms, id);
    forall other, i | 0 <= i < 7
      ensures SlotKey(other, i) in Cancelled(alarms, id) <==>
        other in kept && kept[other].on && NormalizeMask(kept[other].days)[i]
    {
      SlotKeyRoundTrip(other, i);
    }
  }

  /** Delete with the id as the source computes it keeps the table in sync
      as long as the largest `Int` key is below `Int.MAX_VALUE`. */
  lemma DeleteAsWrittenKeepsSync(timers: map<string, TimerConfig>, alarms: map<string, Alarm>,
                                 timerId: string)
    requires InSync(timers, alarms)
    requires MaxOrNull(IntKeys(timers.Keys)).GetOr(0) < IntMax
    ensures var id := NewIdAsWritten(timerId, timers.Keys);
      InSync(if timerId != "0" then timers - {timerId} else timers, Cancelled(alarms, id))
  {
    var id := NewIdAsWritten(timerId, timers.Keys);
    var kept := if timerId != "0" then timers - {timerId} else timers;
    CancelledSlots(alarms, id);
    forall other, i | 0 <= i < 7
      ensures SlotKey(other, i) in Cancelled(alarms, id) <==>
        other in kept && kept[other].on && NormalizeMask(kept[other].days)[i]
    {
      SlotKeyRoundTrip(other, i);
    }
  }

  /** Saving a new timer's form untouched arms nothing: no weekday is
      flagged, so the table only loses the id's (absent) slots. */
  lemma UntouchedNewFormArmsNothing(timers: map<string, TimerConfig>, alarms: map<string, Alarm>,
                                    id: string, clock: TimeOfDay, now: int)
    requires id !in timers
    ensures var config := SavedConfig(InitialForm(timers, id, clock));
      Scheduled(Cancelled(alarms, id), id, config, now) == Cancelled(alarms, id)
  {
    var config := SavedConfig(InitialForm(timers, id, clock));
    var before := Cancelled(alarms, id);
    ScheduledSlots(before, id, config, now);
    var after := Scheduled(before, id, config, now);
    forall key | key in after || key in before
      ensures key in after <==> key in before
      ensures key in before ==> after[key] == before[key]
    {
      assert !ArmsSlot(key, id, config, 7);
    }
  }

  /** With the id as the source computes it, Delete on a new screen whose id
      collides with a stored, enabled timer cancels that timer's alarms
      while its record stays: the table falls out of sync. */
  lemma DeleteWithCollidingIdBreaksSync(timers: map<string, TimerConfig>, alarms: map<string, Alarm>)
    requires InSync(timers, alarms)
    requires NewIdAsWritten("0", timers.Keys) in timers
    requires timers[NewIdAsWritten("0", timers.Keys)].on
    requires true in NormalizeMask(timers[NewIdAsWritten("0", timers.Keys)].days)
    ensures !InSync(timers, Cancelled(alarms, NewIdAsWritten("0", timers.Keys)))
  {
    var id := NewIdAsWritten("0", timers.Keys);
    var mask := NormalizeMask(timers[id].days);
    var i :| 0 <= i < 7 && mask[i];
    CancelledSlots(alarms, id);
    assert SlotKey(id, i) !in Cancelled(alarms, id);
  }
}
