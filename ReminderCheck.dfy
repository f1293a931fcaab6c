/** The reminder check that runs on every scheduler tick: it takes the
    minute of the day, skips reminders that are completed or already
    notified, reads each remaining reminder's "HH:MM" time the way
    `split(':')` and `parseInt(…, 10)` do, and for every reminder due at or
    before now plays the reminder sound and dispatches
    MARK_REMINDER_NOTIFIED with the reminder's id.

    The sound is an abstract effect; the tick's period and the host clock
    are not modelled (the clock reading is a parameter). */
module ReminderCheck {
  import opened Types
  import opened AppContext

  /** The effects of one tick, in the order they happen. */
  datatype Effect = PlayReminderAlert | Dispatch(action: AppAction)

  /** The clock's minute of the day, from its hour and minute readings. */
  function MinuteOfDay(hours: int, minutes: int): (m: int)
    requires 0 <= hours < 24 && 0 <= minutes < 60
    ensures 0 <= m <= 1439
    ensures m / 60 == hours && m % 60 == minutes
  {
    hours * 60 + minutes
  }

  // ---------------------------------------------------------------------
  // `time.split(':')` and `parseInt(part, 10)`

  /** The part of `s` before the first `c`, or all of `s` if there is none. */
  function UpTo(s: string, c: char): (prefix: string)
    ensures |prefix| <= |s| && prefix == s[..|prefix|]
    ensures c !in prefix
    ensures |prefix| < |s| ==> s[|prefix|] == c
  {
    if s == [] || s[0] == c then [] else [s[0]] + UpTo(s[1..], c)
  }

  /** The first two fields of `time.split(':')`; the second is absent
      (`undefined`) when the text has no colon. */
  function SplitTime(time: string): (string, Option<string>) {
    var hoursText := UpTo(time, ':');
    if |hoursText| == |time| then (hoursText, None)
    else (hoursText, Some(UpTo(time[|hoursText| + 1..], ':')))
  }

  /** The characters `parseInt` skips before the number: the JavaScript
      white-space and line-terminator characters. */
  predicate IsJsSpace(c: char) {
    || c == ' ' || c == '\t' || c == '\n' || c == '\r'
    || c as int == 0x0B || c as int == 0x0C || c as int == 0xA0 || c as int == 0x1680
    || (0x2000 <= c as int <= 0x200A)
    || c as int == 0x2028 || c as int == 0x2029 || c as int == 0x202F
    || c as int == 0x205F || c as int == 0x3000 || c as int == 0xFEFF
  }

  predicate IsDigit(c: char) { '0' <= c <= '9' }

  function SkipSpace(s: string): (rest: string)
    ensures |rest| <= |s| && rest == s[|s| - |rest|..]
    ensures rest == [] || !IsJsSpace(rest[0])
    ensures forall k :: 0 <= k < |s| - |rest| ==> IsJsSpace(s[k])
  {
    if s != [] && IsJsSpace(s[0]) then SkipSpace(s[1..]) else s
  }

  /** The longest prefix of `s` made of decimal digits. */
  function DigitPrefix(s: string): (digits: string)
    ensures |digits| <= |s| && digits == s[..|digits|]
    ensures |digits| < |s| ==> !IsDigit(s[|digits|])
    ensures forall k :: 0 <= k < |digits| ==> IsDigit(digits[k])
  {
    if s != [] && IsDigit(s[0]) then [s[0]] + DigitPrefix(s[1..]) else []
  }

  /** The value of a string of decimal digits, most significant first. */
  function DigitsValue(digits: string): int
    decreases |digits|
  {
    if digits == [] then 0
    else 10 * DigitsValue(digits[..|digits| - 1]) + DigitValue(digits[|digits| - 1])
  }

  function DigitValue(c: char): int {
    c as int - '0' as int
  }

  /** `parseInt(text, 10)`: skip leading white space, take an optional sign
      and the longest run of digits after it. `None` stands for NaN, which
      is what a missing field (`undefined`) and a text without leading
      digits give. */
  function ParseInt(text: Option<string>): Option<int> {
    match text
    case None => None
    case Some(s) =>
      var t := SkipSpace(s);
      var negative := t != [] && t[0] == '-';
      var unsigned := if t != [] && (t[0] == '-' || t[0] == '+') then t[1..] else t;
      var digits := DigitPrefix(unsigned);
      if digits == [] then None
      else
        Some(if negative then -DigitsValue(digits) else DigitsValue(digits))
  }

  /** `hours * 60 + minutes` for a reminder's time; `None` when either part
      is NaN (and so is the sum). */
  function ReminderMinutes(time: string): Option<int> {
    var parts := SplitTime(time);
    var hours := ParseInt(Some(parts.0));
    var minutes := ParseInt(parts.1);
    if hours.Some? && minutes.Some? then Some(hours.value * 60 + minutes.value) else None
  }

  /** A reminder the tick reports: pending, with a time that parses and is
      at or before the current minute (NaN compares false). */
  predicate IsDue(r: Reminder, currentMinutes: int) {
    && !r.completed && !r.notified
    && ReminderMinutes(r.time).Some?
    && ReminderMinutes(r.time).value <= currentMinutes
  }

  /** The ids of the reminders that satisfy `due`, in list order. */
  function IdsWhere(rs: seq<Reminder>, due: Reminder -> bool): (ids: seq<string>)
    ensures |ids| <= |rs|
  {
    if rs == [] then []
    else (if due(rs[0]) then [rs[0].id] else []) + IdsWhere(rs[1..], due)
  }

  /** The ids the tick reports, in list order. */
  function DueIds(rs: seq<Reminder>, currentMinutes: int): (ids: seq<string>)
    ensures |ids| <= |rs|
  {
    IdsWhere(rs, r => IsDue(r, currentMinutes))
  }

  /** The effects for a list of due ids: the sound, then the dispatch, per id. */
  function Notifications(ids: seq<string>): seq<Effect> {
    if ids == [] then []
    else [PlayReminderAlert, Dispatch(MarkReminderNotified(ids[0]))] + Notifications(ids[1..])
  }

  /** The actions among a tick's effects, in order. */
  function Dispatched(effects: seq<Effect>): seq<AppAction> {
    if effects == [] then []
    else (if effects[0].Dispatch? then [effects[0].action] else []) + Dispatched(effects[1..])
  }

  /** MARK_REMINDER_NOTIFIED for each id, in order. */
  function Marks(ids: seq<string>): (actions: seq<AppAction>)
    ensures |actions| == |ids|
    ensures forall k :: 0 <= k < |ids| ==> actions[k] == MarkReminderNotified(ids[k])
  {
    if ids == [] then [] else [MarkReminderNotified(ids[0])] + Marks(ids[1..])
  }

  // ---------------------------------------------------------------------
  // The tick

  /** The body of the interval callback: one pass over the reminders, with
      an early `continue` for completed or notified ones. */
  method CheckReminders(reminders: seq<Reminder>, currentMinutes: int) returns (effects: seq<Effect>)
    ensures effects == Notifications(DueIds(reminders, currentMinutes))
    ensures Dispatched(effects) == Marks(DueIds(reminders, currentMinutes))
  {
    effects := [];
    for i := 0 to |reminders|
      invariant effects == Notifications(DueIds(reminders[..i], currentMinutes))
    {
      var reminder := reminders[i];
      assert reminders[..i + 1] == reminders[..i] + [reminder];
      TickStep(reminders[..i], reminder, currentMinutes);
      if reminder.completed || reminder.notified {
        continue;
      }
      var (hoursText, minutesText) := SplitTime(reminder.time);
      var hours := ParseInt(Some(hoursText));
      var minutes := ParseInt(minutesText);
      if hours.Some? && minutes.Some? && hours.value * 60 + minutes.value <= currentMinutes {
        effects := effects + [PlayReminderAlert, Dispatch(MarkReminderNotified(reminder.id))];
      }
    }
    assert reminders[..|reminders|] == reminders;
    DispatchedNotifications(DueIds(reminders, currentMinutes));
  }

  // ---------------------------------------------------------------------
  // Lemmas

  lemma {:induction false} IdsWhereConcat(a: seq<Reminder>, b: seq<Reminder>, due: Reminder -> bool)
    ensures IdsWhere(a + b, due) == IdsWhere(a, due) + IdsWhere(b, due)
  {
    if a == [] {
      assert a + b == b;
    } else {
      var head := if due(a[0]) then [a[0].id] else [];
      assert (a + b)[0] == a[0] && (a + b)[1..] == a[1..] + b;
      IdsWhereConcat(a[1..], b, due);
      assert IdsWhere(a + b, due) == head + IdsWhere(a[1..] + b, due);
    }
  }

  /** Reporting is per reminder and keeps list order: the report for a
      concatenation is the concatenation of the reports. */
  lemma DueIdsConcat(a: seq<Reminder>, b: seq<Reminder>, currentMinutes: int)
    ensures DueIds(a + b, currentMinutes) == DueIds(a, currentMinutes) + DueIds(b, currentMinutes)
  {
    IdsWhereConcat(a, b, r => IsDue(r, currentMinutes));
  }

  /** One more reminder in the scan adds the sound and the dispatch for it
      when it is due, and nothing otherwise. */
  lemma TickStep(scanned: seq<Reminder>, r: Reminder, currentMinutes: int)
    ensures Notifications(DueIds(scanned + [r], currentMinutes)) ==
      Notifications(DueIds(scanned, currentMinutes)) +
      (if IsDue(r, currentMinutes) then [PlayReminderAlert, Dispatch(MarkReminderNotified(r.id))] else [])
  {
    DueIdsConcat(scanned, [r], currentMinutes);
    DueIdsSingleton(r, currentMinutes);
    NotificationsConcat(DueIds(scanned, currentMinutes), DueIds([r], currentMinutes));
    assert Notifications([r.id]) == [PlayReminderAlert, Dispatch(MarkReminderNotified(r.id))] by {
      assert [r.id][1..] == [];
    }
  }

  lemma {:induction false} NotificationsConcat(a: seq<string>, b: seq<string>)
    ensures Notifications(a + b) == Notifications(a) + Notifications(b)
  {
    if a == [] {
      assert a + b == b;
    } else {
      assert (a + b)[1..] == a[1..] + b;
      NotificationsConcat(a[1..], b);
    }
  }

  /** The dispatches of a tick are exactly one MARK_REMINDER_NOTIFIED per
      reported id, in order. */
  lemma {:induction false} DispatchedNotifications(ids: seq<string>)
    ensures Dispatched(Notifications(ids)) == Marks(ids)
  {
    if ids != [] {
      var e := Notifications(ids);
      assert e == [PlayReminderAlert, Dispatch(MarkReminderNotified(ids[0]))] + Notifications(ids[1..]);
      assert e[1..] == [Dispatch(MarkReminderNotified(ids[0]))] + Notifications(ids[1..]);
      assert e[1..][1..] == Notifications(ids[1..]);
      DispatchedNotifications(ids[1..]);
    }
  }

  lemma DueIdsSingleton(r: Reminder, currentMinutes: int)
    ensures DueIds([r], currentMinutes) == if IsDue(r, currentMinutes) then [r.id] else []
  {
    assert [r][1..] == [];
    assert IdsWhere([r][1..], x => IsDue(x, currentMinutes)) == [];
  }

  /** Every reported id belongs to a due reminder of the list. */
  lemma {:induction false} IdsWhereSound(rs: seq<Reminder>, due: Reminder -> bool, id: string)
    requires id in IdsWhere(rs, due)
    ensures exists i :: 0 <= i < |rs| && rs[i].id == id && due(rs[i])
  {
    if !(due(rs[0]) && rs[0].id == id) {
      IdsWhereSound(rs[1..], due, id);
      var k :| 0 <= k < |rs[1..]| && rs[1..][k].id == id && due(rs[1..][k]);
      assert rs[k + 1] == rs[1..][k];
    }
  }

  lemma DueIdsSound(rs: seq<Reminder>, currentMinutes: int, id: string)
    requires id in DueIds(rs, currentMinutes)
    ensures exists i :: 0 <= i < |rs| && rs[i].id == id && IsDue(rs[i], currentMinutes)
  {
    IdsWhereSound(rs, r => IsDue(r, currentMinutes), id);
  }

  /** Every due reminder of the list is reported. */
  lemma {:induction false} IdsWhereComplete(rs: seq<Reminder>, due: Reminder -> bool, i: int)
    requires 0 <= i < |rs| && due(rs[i])
    ensures rs[i].id in IdsWhere(rs, due)
  {
    if i > 0 {
      assert rs[1..][i - 1] == rs[i];
      IdsWhereComplete(rs[1..], due, i - 1);
    }
  }

  lemma DueIdsComplete(rs: seq<Reminder>, currentMinutes: int, i: int)
    requires 0 <= i < |rs| && IsDue(rs[i], currentMinutes)
    ensures rs[i].id in DueIds(rs, currentMinutes)
  {
    IdsWhereComplete(rs, r => IsDue(r, currentMinutes), i);
  }

  /** Each reported id yields the sound and then its own
      MARK_REMINDER_NOTIFIED, in the order of the ids. */
  lemma {:induction false} NotificationsAt(ids: seq<string>, k: int)
    requires 0 <= k < |ids|
    ensures |Notifications(ids)| == 2 * |ids|
    ensures Notifications(ids)[2 * k] == PlayReminderAlert
    ensures Notifications(ids)[2 * k + 1] == Dispatch(MarkReminderNotified(ids[k]))
  {
    if k > 0 {
      NotificationsAt(ids[1..], k - 1);
    } else if |ids| > 1 {
      NotificationsAt(ids[1..], 0);
    } else {
      assert ids[1..] == [];
    }
  }

  /** A completed or already notified reminder is never reported. */
  lemma DoneReminderNeverDue(r: Reminder, currentMinutes: int)
    requires r.completed || r.notified
    ensures DueIds([r], currentMinutes) == []
  {
    DueIdsSingleton(r, currentMinutes);
  }

  /** A time with no colon has no minutes field: NaN, never due. */
  lemma {:induction false} NoColonNeverDue(r: Reminder, currentMinutes: int)
    requires ':' !in r.time
    ensures !IsDue(r, currentMinutes)
  {
  }

  /** A time whose hours field has no digit after the optional sign is NaN,
      never due, whatever the minutes field holds. */
  lemma NoHourDigitsNeverDue(r: Reminder, currentMinutes: int)
    requires var t := SkipSpace(SplitTime(r.time).0);
      var unsigned := if t != [] && (t[0] == '-' || t[0] == '+') then t[1..] else t;
      unsigned == [] || !IsDigit(unsigned[0])
    ensures !IsDue(r, currentMinutes)
  {
  }

  /** A time whose minutes field is there but has no digit after the
      optional sign is NaN, never due, whatever the hours field holds. */
  lemma NoMinuteDigitsNeverDue(r: Reminder, currentMinutes: int)
    requires SplitTime(r.time).1.Some?
    requires var t := SkipSpace(SplitTime(r.time).1.value);
      var unsigned := if t != [] && (t[0] == '-' || t[0] == '+') then t[1..] else t;
      unsigned == [] || !IsDigit(unsigned[0])
    ensures !IsDue(r, currentMinutes)
  {
  }

  /** A time is never due when either of its fields is NaN. */
  lemma NaNNeverDue(r: Reminder, currentMinutes: int)
    requires ParseInt(Some(SplitTime(r.time).0)).None? || ParseInt(SplitTime(r.time).1).None?
    ensures !IsDue(r, currentMinutes)
  {
  }

  /** Two decimal digits, zero-padded: how "HH" and "MM" are written. */
  function TwoDigits(n: nat): (s: string)
    requires n < 100
    ensures |s| == 2 && IsDigit(s[0]) && IsDigit(s[1])
  {
    [('0' as int + n / 10) as char, ('0' as int + n % 10) as char]
  }

  function FormatTime(hours: nat, minutes: nat): string
    requires hours < 100 && minutes < 100
  {
    TwoDigits(hours) + ":" + TwoDigits(minutes)
  }

  lemma {:induction false} UpToStops(a: string, c: char, b: string)
    requires c !in a
    ensures UpTo(a + [c] + b, c) == a
  {
    if a != [] {
      assert (a + [c] + b)[1..] == a[1..] + [c] + b;
      UpToStops(a[1..], c, b);
    }
  }

  lemma {:induction false} UpToAbsent(a: string, c: char)
    requires c !in a
    ensures UpTo(a, c) == a
  {
  }

  lemma TwoDigitsScan(n: nat)
    requires n < 100
    ensures SkipSpace(TwoDigits(n)) == TwoDigits(n) && DigitPrefix(TwoDigits(n)) == TwoDigits(n)
  {
    var s := TwoDigits(n);
    assert !IsJsSpace(s[0]);
    assert s[1..][1..] == [];
  }

  lemma TwoDigitsValue(n: nat)
    requires n < 100
    ensures DigitsValue(TwoDigits(n)) == n
  {
    var s := TwoDigits(n);
    var first := [s[0]];
    assert DigitValue(s[0]) == n / 10 && DigitValue(s[1]) == n % 10;
    assert s[..|s| - 1] == first && first[..|first| - 1] == [];
    assert DigitsValue(first) == n / 10;
  }

  lemma TwoDigitsParse(n: nat)
    requires n < 100
    ensures ParseInt(Some(TwoDigits(n))) == Some(n)
  {
    TwoDigitsScan(n);
    TwoDigitsValue(n);
  }

  lemma SplitFormattedTime(hours: nat, minutes: nat)
    requires hours < 100 && minutes < 100
    ensures SplitTime(FormatTime(hours, minutes)) == (TwoDigits(hours), Some(TwoDigits(minutes)))
  {
    var time := FormatTime(hours, minutes);
    var hh, mm := TwoDigits(hours), TwoDigits(minutes);
    assert time == hh + [':'] + mm;
    UpToStops(hh, ':', mm);
    assert time[|hh| + 1..] == mm;
    UpToAbsent(mm, ':');
  }

  lemma MinutesFromParts(time: string, hoursText: string, minutesText: string, hours: int, minutes: int)
    requires SplitTime(time) == (hoursText, Some(minutesText))
    requires ParseInt(Some(hoursText)) == Some(hours) && ParseInt(Some(minutesText)) == Some(minutes)
    ensures ReminderMinutes(time) == Some(hours * 60 + minutes)
  {
  }

  /** Reading back a zero-padded "HH:MM" time gives `HH * 60 + MM`. */
  lemma ParseFormattedTime(hours: nat, minutes: nat)
    requires hours < 100 && minutes < 100
    ensures ReminderMinutes(FormatTime(hours, minutes)) == Some(hours * 60 + minutes)
  {
    SplitFormattedTime(hours, minutes);
    TwoDigitsParse(hours);
    TwoDigitsParse(minutes);
    MinutesFromParts(FormatTime(hours, minutes), TwoDigits(hours), TwoDigits(minutes), hours, minutes);
  }

  /** A pending reminder written "HH:MM" is reported exactly when
      `HH * 60 + MM` is at or before the current minute. */
  lemma DueExactlyWhenTimeReached(r: Reminder, hours: nat, minutes: nat, currentMinutes: int)
    requires hours < 100 && minutes < 100 && r.time == FormatTime(hours, minutes)
    ensures IsDue(r, currentMinutes) <==>
            !r.completed && !r.notified && hours * 60 + minutes <= currentMinutes
  {
    ParseFormattedTime(hours, minutes);
  }

  /** Late start catches up: a reminder due now is still due later. */
  lemma DueStaysDue(r: Reminder, now1: int, now2: int)
    requires IsDue(r, now1) && now1 <= now2
    ensures IsDue(r, now2)
  {
  }

  /** Dispatching MARK_REMINDER_NOTIFIED for a list of ids notifies every
      reminder whose id is in the list and changes nothing else. */
  lemma {:induction false} MarksNotify(s: AppState, ids: seq<string>, stamps: seq<Stamp>)
    requires |stamps| == |ids|
    decreases |ids|
    ensures var t := ApplyAll(s, Marks(ids), stamps);
      && |t.reminders| == |s.reminders|
      && (forall i :: 0 <= i < |s.reminders| ==>
            t.reminders[i] == if s.reminders[i].id in ids then s.reminders[i].(notified := true) else s.reminders[i])
      && t.(reminders := s.reminders) == s
  {
    if ids != [] {
      var s1 := Apply(s, MarkReminderNotified(ids[0]), stamps[0]);
      assert Marks(ids)[1..] == Marks(ids[1..]);
      MarksNotify(s1, ids[1..], stamps[1..]);
      var t := ApplyAll(s, Marks(ids), stamps);
      assert t == ApplyAll(s1, Marks(ids[1..]), stamps[1..]);
      forall i | 0 <= i < |s.reminders|
        ensures t.reminders[i] == if s.reminders[i].id in ids then s.reminders[i].(notified := true) else s.reminders[i]
      {
        assert s.reminders[i].id in ids <==> s.reminders[i].id == ids[0] || s.reminders[i].id in ids[1..];
      }
    }
  }

  /** At most once: after one tick's dispatches have been applied, a second
      tick, at the same or any later (or earlier) minute, reports none of
      the reminders the first tick reported. */
  lemma TickThenTickAgain(s: AppState, now1: int, now2: int, clock: seq<Stamp>)
    requires |clock| == |DueIds(s.reminders, now1)|
    ensures var ids := DueIds(s.reminders, now1);
      var t := ApplyAll(s, Marks(ids), clock);
      forall id :: id in ids ==> id !in DueIds(t.reminders, now2)
  {
    var ids := DueIds(s.reminders, now1);
    var t := ApplyAll(s, Marks(ids), clock);
    MarksNotify(s, ids, clock);
    forall id | id in ids ensures id !in DueIds(t.reminders, now2) {
      if id in DueIds(t.reminders, now2) {
        DueIdsSound(t.reminders, now2, id);
      }
    }
  }

  /** The same, stated on the effects the tick method produces. */
  lemma CheckRemindersAtMostOnce(s: AppState, now1: int, now2: int, clock: seq<Stamp>, effects: seq<Effect>)
    requires effects == Notifications(DueIds(s.reminders, now1))
    requires |clock| == |Dispatched(effects)|
    ensures var t := ApplyAll(s, Dispatched(effects), clock);
      forall id :: id in DueIds(s.reminders, now1) ==> id !in DueIds(t.reminders, now2)
  {
    DispatchedNotifications(DueIds(s.reminders, now1));
    TickThenTickAgain(s, now1, now2, clock);
  }

  lemma FormattedReminderReport(r: Reminder, hours: nat, minutes: nat, currentMinutes: int)
    requires hours < 100 && minutes < 100 && r.time == FormatTime(hours, minutes)
    requires !r.completed && !r.notified
    ensures DueIds([r], currentMinutes) == if hours * 60 + minutes <= currentMinutes then [r.id] else []
  {
    DueExactlyWhenTimeReached(r, hours, minutes, currentMinutes);
    DueIdsSingleton(r, currentMinutes);
  }

  /** Three pending reminders written "08:00", "08:30" and "10:00" come due
      in that order. */
  lemma MorningSchedule(r0: Reminder, r1: Reminder, r2: Reminder, currentMinutes: int)
    requires !r0.completed && !r0.notified && !r1.completed && !r1.notified && !r2.completed && !r2.notified
    requires r0.time == FormatTime(8, 0) && r1.time == FormatTime(8, 30) && r2.time == FormatTime(10, 0)
    ensures DueIds([r0, r1, r2], currentMinutes) ==
      (if 480 <= currentMinutes then [r0.id] else []) +
      (if 510 <= currentMinutes then [r1.id] else []) +
      (if 600 <= currentMinutes then [r2.id] else [])
  {
    FormattedReminderReport(r0, 8, 0, currentMinutes);
    FormattedReminderReport(r1, 8, 30, currentMinutes);
    FormattedReminderReport(r2, 10, 0, currentMinutes);
    assert [r0, r1, r2] == [r0, r1] + [r2] && [r0, r1] == [r0] + [r1];
    DueIdsConcat([r0, r1], [r2], currentMinutes);
    DueIdsConcat([r0], [r1], currentMinutes);
  }

  /** The seed reminders "1", "2" and "3" come due at 08:00, 08:30 and
      10:00, in that order. */
  lemma SeedSchedule(locale: string, currentMinutes: int)
    ensures DueIds(InitialState(locale).reminders, currentMinutes) ==
      (if 480 <= currentMinutes then ["1"] else []) +
      (if 510 <= currentMinutes then ["2"] else []) +
      (if 600 <= currentMinutes then ["3"] else [])
  {
    assert "08:00" == FormatTime(8, 0) && "08:30" == FormatTime(8, 30) && "10:00" == FormatTime(10, 0);
    var rs := InitialState(locale).reminders;
    assert rs == [rs[0], rs[1], rs[2]];
    MorningSchedule(rs[0], rs[1], rs[2], currentMinutes);
  }
}
