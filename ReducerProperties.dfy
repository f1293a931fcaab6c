/** What each reducer case does to the state, and the invariants that every
    action keeps: the audit log only grows at its head, reminder flags never
    switch back off, and alerts are never removed nor re-armed. */
module ReducerProperties {
  import opened Types
  import opened AppContext

  // ---------------------------------------------------------------------
  // Facts about the sequence rewrites

  /** `filter` keeps the relative order: filtering a concatenation is the
      concatenation of the filtered parts. */
  lemma {:induction false} RemoveRemindersConcat(a: seq<Reminder>, b: seq<Reminder>, id: string)
    ensures RemoveReminders(a + b, id) == RemoveReminders(a, id) + RemoveReminders(b, id)
  {
    if a == [] {
      assert a + b == b;
    } else {
      assert (a + b)[1..] == a[1..] + b;
      RemoveRemindersConcat(a[1..], b, id);
    }
  }

  /** Filtering a list that holds no reminder with the id leaves it as it is. */
  lemma {:induction false} RemoveRemindersAbsent(rs: seq<Reminder>, id: string)
    requires forall i :: 0 <= i < |rs| ==> rs[i].id != id
    ensures RemoveReminders(rs, id) == rs
  {
    if rs != [] {
      RemoveRemindersAbsent(rs[1..], id);
    }
  }

  lemma RemoveRemindersIdempotent(rs: seq<Reminder>, id: string)
    ensures RemoveReminders(RemoveReminders(rs, id), id) == RemoveReminders(rs, id)
  {
    var kept := RemoveReminders(rs, id);
    forall i | 0 <= i < |kept| ensures kept[i].id != id {
      assert kept[i] in kept;
    }
    RemoveRemindersAbsent(kept, id);
  }

  lemma MarkRemindersIdempotent(rs: seq<Reminder>, id: string, flag: ReminderFlag)
    ensures MarkReminders(MarkReminders(rs, id, flag), id, flag) == MarkReminders(rs, id, flag)
  {
    var once := MarkReminders(rs, id, flag);
    var twice := MarkReminders(once, id, flag);
    assert forall i :: 0 <= i < |rs| ==> twice[i] == once[i];
  }

  lemma AcknowledgeAllIdempotent(alerts: seq<Alert>)
    ensures AcknowledgeAll(AcknowledgeAll(alerts)) == AcknowledgeAll(alerts)
  {
    var once := AcknowledgeAll(alerts);
    assert forall i :: 0 <= i < |alerts| ==> AcknowledgeAll(once)[i] == once[i];
  }

  /** `needle` occurs in `hay` starting at position `i`. */
  predicate OccursAt(hay: string, needle: string, i: int) {
    0 <= i && i + |needle| <= |hay| && hay[i..i + |needle|] == needle
  }

  /** `Contains` agrees with the textbook definition of a substring. */
  lemma {:induction false} ContainsIff(hay: string, needle: string)
    ensures Contains(hay, needle) <==> exists i :: OccursAt(hay, needle, i)
  {
    if |needle| <= |hay| && hay[..|needle|] == needle {
      assert OccursAt(hay, needle, 0);
    } else if hay == [] {
    } else {
      ContainsIff(hay[1..], needle);
      if exists i :: OccursAt(hay, needle, i) {
        var i :| OccursAt(hay, needle, i);
        assert i != 0;
        assert hay[1..][i - 1..i - 1 + |needle|] == hay[i..i + |needle|];
        assert OccursAt(hay[1..], needle, i - 1);
      }
      if Contains(hay[1..], needle) {
        var i :| OccursAt(hay[1..], needle, i);
        assert hay[i + 1..i + 1 + |needle|] == hay[1..][i..i + |needle|];
        assert OccursAt(hay, needle, i + 1);
      }
    }
  }

  /** A non-empty needle can only occur where its first character does. */
  lemma {:induction false} ContainsFirstChar(hay: string, needle: string)
    requires |needle| > 0 && Contains(hay, needle)
    ensures needle[0] in hay
  {
    if |needle| <= |hay| && hay[..|needle|] == needle {
      assert hay[0] == needle[0];
    } else {
      ContainsFirstChar(hay[1..], needle);
    }
  }

  /** A text always contains its own suffix. */
  lemma {:induction false} ContainsSuffix(prefix: string, suffix: string)
    ensures Contains(prefix + suffix, suffix)
  {
    if prefix == [] {
      assert (prefix + suffix)[..|suffix|] == suffix;
    } else {
      assert (prefix + suffix)[1..] == prefix[1..] + suffix;
      ContainsSuffix(prefix[1..], suffix);
    }
  }

  // ---------------------------------------------------------------------
  // One lemma per reducer case

  lemma UnknownActionIsNoOp(s: AppState, tag: string, now: Stamp)
    ensures Apply(s, Other(tag), now) == s
  {
  }

  lemma AddReminderEffect(s: AppState, r: Reminder, now: Stamp)
    ensures var t := Apply(s, AddReminder(r), now);
      && t.reminders == s.reminders + [r]
      && t.eventLog == [EventLogItem(now.iso, "Caregiver scheduled \"" + r.title + "\".", now.locale, "task")] + s.eventLog
      && t.alerts == s.alerts && t.memories == s.memories
      && t.sharedQuote == s.sharedQuote && t.voiceMessages == s.voiceMessages
  {
  }

  /** The reminders after COMPLETE_REMINDER: every reminder with the id is
      completed, every other one is untouched, in the same positions. */
  lemma CompleteReminderEffect(s: AppState, id: string, now: Stamp)
    ensures var t := Apply(s, CompleteReminder(id), now);
      && |t.reminders| == |s.reminders|
      && (forall i :: 0 <= i < |s.reminders| ==>
            t.reminders[i] == if s.reminders[i].id == id then s.reminders[i].(completed := true) else s.reminders[i])
      && |t.eventLog| == |s.eventLog| + 1 && t.eventLog[1..] == s.eventLog
      && t.eventLog[0].id == now.iso && t.eventLog[0].timestamp == now.locale && t.eventLog[0].icon == "reminder"
      && t.alerts == s.alerts && t.memories == s.memories
      && t.sharedQuote == s.sharedQuote && t.voiceMessages == s.voiceMessages
  {
    var t := Apply(s, CompleteReminder(id), now);
    assert t.eventLog[1..] == s.eventLog;
  }

  /** The log text of COMPLETE_REMINDER names the first reminder with the
      id, and reads "undefined" when there is none: an entry is logged
      either way. */
  lemma CompleteReminderLogText(s: AppState, id: string, now: Stamp)
    ensures var text := Apply(s, CompleteReminder(id), now).eventLog[0].text;
      && ((forall i :: 0 <= i < |s.reminders| ==> s.reminders[i].id != id) ==>
            text == "Patient marked \"undefined\" as complete.")
      && (forall i :: 0 <= i < |s.reminders| && s.reminders[i].id == id &&
                      (forall j :: 0 <= j < i ==> s.reminders[j].id != id) ==>
            text == "Patient marked \"" + s.reminders[i].title + "\" as complete.")
  {
    var found := FindReminder(s.reminders, id);
    forall i | 0 <= i < |s.reminders| && s.reminders[i].id == id &&
               (forall j :: 0 <= j < i ==> s.reminders[j].id != id)
      ensures found == Some(s.reminders[i])
    {
      var k :| 0 <= k < |s.reminders| && s.reminders[k] == found.value && s.reminders[k].id == id &&
               forall j :: 0 <= j < k ==> s.reminders[j].id != id;
      assert !(k < i) && !(i < k);
    }
  }

  /** DELETE_REMINDER keeps exactly the reminders with another id, in their
      order, and leaves the log and every other field alone. */
  lemma DeleteReminderEffect(s: AppState, id: string, now: Stamp)
    ensures var t := Apply(s, DeleteReminder(id), now);
      && (forall r :: r in t.reminders <==> r in s.reminders && r.id != id)
      && (forall i :: 0 <= i < |t.reminders| ==> t.reminders[i].id != id)
      && ((forall i :: 0 <= i < |s.reminders| ==> s.reminders[i].id != id) ==> t.reminders == s.reminders)
      && t.eventLog == s.eventLog && t.alerts == s.alerts && t.memories == s.memories
      && t.sharedQuote == s.sharedQuote && t.voiceMessages == s.voiceMessages
  {
    var t := Apply(s, DeleteReminder(id), now);
    forall i | 0 <= i < |t.reminders| ensures t.reminders[i].id != id {
      assert t.reminders[i] in t.reminders;
    }
    if forall i :: 0 <= i < |s.reminders| ==> s.reminders[i].id != id {
      RemoveRemindersAbsent(s.reminders, id);
    }
  }

  lemma DeleteReminderIdempotent(s: AppState, id: string, now1: Stamp, now2: Stamp)
    ensures var t := Apply(s, DeleteReminder(id), now1);
      Apply(t, DeleteReminder(id), now2) == t
  {
    RemoveRemindersIdempotent(s.reminders, id);
  }

  lemma MarkNotifiedEffect(s: AppState, id: string, now: Stamp)
    ensures var t := Apply(s, MarkReminderNotified(id), now);
      && |t.reminders| == |s.reminders|
      && (forall i :: 0 <= i < |s.reminders| ==>
            t.reminders[i] == if s.reminders[i].id == id then s.reminders[i].(notified := true) else s.reminders[i])
      && t.eventLog == s.eventLog && t.alerts == s.alerts && t.memories == s.memories
      && t.sharedQuote == s.sharedQuote && t.voiceMessages == s.voiceMessages
  {
  }

  lemma MarkNotifiedIdempotent(s: AppState, id: string, now1: Stamp, now2: Stamp)
    ensures var t := Apply(s, MarkReminderNotified(id), now1);
      Apply(t, MarkReminderNotified(id), now2) == t
  {
    MarkRemindersIdempotent(s.reminders, id, Notified);
  }

  /** Completing the same id again leaves the reminders as they are; only
      the log grows, by one more entry. */
  lemma CompleteReminderIdempotentOnReminders(s: AppState, id: string, now1: Stamp, now2: Stamp)
    ensures var t := Apply(s, CompleteReminder(id), now1);
      var u := Apply(t, CompleteReminder(id), now2);
      && u.reminders == t.reminders
      && |u.eventLog| == |t.eventLog| + 1 && u.eventLog[1..] == t.eventLog
      && u.(eventLog := t.eventLog) == t
  {
    MarkRemindersIdempotent(s.reminders, id, Completed);
  }

  /** TRIGGER_SOS puts a copy of the payload at the head of the alerts, with
      its acknowledgement flag forced on for SOS and FALL, and logs one entry. */
  lemma TriggerSosEffect(s: AppState, payload: Alert, now: Stamp)
    ensures var t := Apply(s, TriggerSos(payload), now);
      && |t.alerts| == |s.alerts| + 1 && t.alerts[1..] == s.alerts
      && t.alerts[0].(requiresAcknowledgement := payload.requiresAcknowledgement) == payload
      && t.alerts[0].requiresAcknowledgement ==
           (if payload.kind == SOS || payload.kind == FALL then Some(true) else payload.requiresAcknowledgement)
      && |t.eventLog| == |s.eventLog| + 1 && t.eventLog[1..] == s.eventLog
      && t.eventLog[0].text ==
           (if payload.kind == FALL then "Potential fall detected!" else "Patient triggered an SOS alert!")
      && t.eventLog[0].icon == (if payload.kind == FALL then "fall" else "sos")
      && t.reminders == s.reminders && t.memories == s.memories
      && t.sharedQuote == s.sharedQuote && t.voiceMessages == s.voiceMessages
  {
    var t := Apply(s, TriggerSos(payload), now);
    assert t.alerts[1..] == s.alerts;
    assert t.eventLog[1..] == s.eventLog;
  }

  /** ACKNOWLEDGE_ALERTS keeps every alert in place, clears the flag of the
      SOS and FALL ones and leaves the others and the log alone. */
  lemma AcknowledgeAlertsEffect(s: AppState, now: Stamp)
    ensures var t := Apply(s, AcknowledgeAlerts, now);
      && |t.alerts| == |s.alerts|
      && (forall i :: 0 <= i < |s.alerts| ==>
            if s.alerts[i].kind == SOS || s.alerts[i].kind == FALL
            then t.alerts[i] == s.alerts[i].(requiresAcknowledgement := Some(false))
            else t.alerts[i] == s.alerts[i])
      && t.eventLog == s.eventLog && t.reminders == s.reminders && t.memories == s.memories
      && t.sharedQuote == s.sharedQuote && t.voiceMessages == s.voiceMessages
  {
  }

  lemma AcknowledgeAlertsIdempotent(s: AppState, now1: Stamp, now2: Stamp)
    ensures var t := Apply(s, AcknowledgeAlerts, now1);
      Apply(t, AcknowledgeAlerts, now2) == t
  {
    AcknowledgeAllIdempotent(s.alerts);
  }

  /** LOG_EMOTION either changes nothing (the newest alert already reports
      this emotion) or adds one emotion alert and one log entry. */
  lemma LogEmotionEffect(s: AppState, e: string, now: Stamp)
    ensures var t := Apply(s, LogEmotion(e), now);
      if |s.alerts| > 0 && s.alerts[0].kind == EMOTION && Contains(s.alerts[0].message, e) then t == s
      else
        && t.alerts == [Alert(now.iso, "Patient may be feeling: " + e, now.locale, EMOTION, None)] + s.alerts
        && t.eventLog == [EventLogItem(now.iso, "AI companion detected emotion: " + e + ".", now.locale, "emotion")] + s.eventLog
        && t.reminders == s.reminders && t.memories == s.memories
        && t.sharedQuote == s.sharedQuote && t.voiceMessages == s.voiceMessages
  {
  }

  /** The same emotion logged twice in a row yields one alert: the second
      dispatch is a no-op. */
  lemma {:induction false} LogEmotionTwice(s: AppState, e: string, now1: Stamp, now2: Stamp)
    ensures var t := Apply(s, LogEmotion(e), now1);
      && Apply(t, LogEmotion(e), now2) == t
      && |t.alerts| <= |s.alerts| + 1
  {
    ContainsSuffix("Patient may be feeling: ", e);
  }

  /** A different emotion that the previous message does not mention is
      logged as a second alert. */
  lemma LogEmotionThenOther(s: AppState, e1: string, e2: string, now1: Stamp, now2: Stamp)
    requires !IsRepeatedEmotion(s.alerts, e1)
    requires !Contains("Patient may be feeling: " + e1, e2)
    ensures var t := Apply(Apply(s, LogEmotion(e1), now1), LogEmotion(e2), now2);
      |t.alerts| == |s.alerts| + 2 && |t.eventLog| == |s.eventLog| + 2
  {
  }

  lemma SadNotInHappyMessage()
    ensures !Contains(EmotionAlertText("happy"), "sad")
  {
    var msg := EmotionAlertText("happy");
    if Contains(msg, "sad") {
      ContainsFirstChar(msg, "sad");
      assert false;
    }
  }

  /** "happy" then "sad" yields two emotion alerts, the newest for "sad". */
  lemma HappyThenSadYieldsTwoAlerts(s: AppState, now1: Stamp, now2: Stamp)
    requires !IsRepeatedEmotion(s.alerts, "happy")
    ensures var t := Apply(Apply(s, LogEmotion("happy"), now1), LogEmotion("sad"), now2);
      && |t.alerts| == |s.alerts| + 2
      && t.alerts[0].message == "Patient may be feeling: sad"
      && t.alerts[1].message == "Patient may be feeling: happy"
  {
    SadNotInHappyMessage();
    LogEmotionThenOther(s, "happy", "sad", now1, now2);
  }

  lemma AddMemoryEffect(s: AppState, m: Memory, now: Stamp)
    ensures var t := Apply(s, AddMemory(m), now);
      && t.memories == [m] + s.memories
      && t.eventLog == [EventLogItem(now.iso, m.sharedBy + " shared a new memory.", now.locale, "memory")] + s.eventLog
      && t.reminders == s.reminders && t.alerts == s.alerts
      && t.sharedQuote == s.sharedQuote && t.voiceMessages == s.voiceMessages
  {
  }

  lemma AddQuoteEffect(s: AppState, q: SharedQuote, now: Stamp)
    ensures Apply(s, AddQuote(q), now) == s.(sharedQuote := Some(q))
  {
  }

  lemma AddVoiceMessageEffect(s: AppState, v: VoiceMessage, now: Stamp)
    ensures Apply(s, AddVoiceMessage(v), now) == s.(voiceMessages := [v] + s.voiceMessages)
  {
  }

  // ---------------------------------------------------------------------
  // Scenarios

  /** Scheduling a reminder with a fresh id and then completing it: the
      new reminder is last and completed, and the two newest log entries
      tell the story. */
  lemma AddThenComplete(s: AppState, r: Reminder, now1: Stamp, now2: Stamp)
    requires forall j :: 0 <= j < |s.reminders| ==> s.reminders[j].id != r.id
    ensures var s1 := Apply(s, AddReminder(r), now1);
      var s2 := Apply(s1, CompleteReminder(r.id), now2);
      && |s1.reminders| == |s.reminders| + 1
      && s1.eventLog[0].text == "Caregiver scheduled \"" + r.title + "\"."
      && |s2.reminders| == |s.reminders| + 1 && s2.reminders[|s.reminders|] == r.(completed := true)
      && s2.eventLog[0].text == "Patient marked \"" + r.title + "\" as complete."
      && |s2.eventLog| == |s.eventLog| + 2
  {
    var s1 := Apply(s, AddReminder(r), now1);
    AddReminderEffect(s, r, now1);
    CompleteReminderEffect(s1, r.id, now2);
    CompleteReminderLogText(s1, r.id, now2);
    assert s1.reminders[|s.reminders|] == r;
    assert forall j :: 0 <= j < |s.reminders| ==> s1.reminders[j].id != r.id;
  }

  /** A fall raises an alert that demands acknowledgement and logs
      "Potential fall detected!"; acknowledging clears the demand and adds
      nothing to the log. */
  lemma FallScenario(s: AppState, fall: Alert, now1: Stamp, now2: Stamp)
    requires fall.kind == FALL
    ensures var s1 := Apply(s, TriggerSos(fall), now1);
      var s2 := Apply(s1, AcknowledgeAlerts, now2);
      && s1.alerts[0].requiresAcknowledgement == Some(true)
      && s1.eventLog[0].text == "Potential fall detected!"
      && s2.alerts[0].requiresAcknowledgement == Some(false)
      && s2.eventLog == s1.eventLog
  {
    var s1 := Apply(s, TriggerSos(fall), now1);
    TriggerSosEffect(s, fall, now1);
    AcknowledgeAlertsEffect(s1, now2);
  }

  // ---------------------------------------------------------------------
  // Invariants kept by every action

  /** The audit log is append-only at its head: one step either leaves it as
      it is or puts exactly one new entry in front of it. */
  lemma LogGrowsAtHead(s: AppState, a: AppAction, now: Stamp)
    ensures var t := Apply(s, a, now);
      t.eventLog == s.eventLog || (|t.eventLog| == |s.eventLog| + 1 && t.eventLog[1..] == s.eventLog)
  {
    var t := Apply(s, a, now);
    if t.eventLog != s.eventLog {
      assert t.eventLog[1..] == s.eventLog;
    }
  }

  /** Over any series of actions the old log survives unchanged as the tail
      of the new one: no entry is ever edited or removed. */
  lemma {:induction false} LogIsSuffixAfterAll(s: AppState, actions: seq<AppAction>, stamps: seq<Stamp>)
    requires |stamps| == |actions|
    decreases |actions|
    ensures var t := ApplyAll(s, actions, stamps);
      |s.eventLog| <= |t.eventLog| && t.eventLog[|t.eventLog| - |s.eventLog|..] == s.eventLog
  {
    if actions != [] {
      var s1 := Apply(s, actions[0], stamps[0]);
      LogGrowsAtHead(s, actions[0], stamps[0]);
      LogIsSuffixAfterAll(s1, actions[1..], stamps[1..]);
      var t := ApplyAll(s1, actions[1..], stamps[1..]);
      assert ApplyAll(s, actions, stamps) == t;
      SuffixAfterHeadGrowth(s.eventLog, s1.eventLog, t.eventLog);
    }
  }

  /** A log that grew at its head and then kept it as its tail still ends
      with the original log. */
  lemma SuffixAfterHeadGrowth(a: seq<EventLogItem>, b: seq<EventLogItem>, c: seq<EventLogItem>)
    requires b == a || (|b| == |a| + 1 && b[1..] == a)
    requires |b| <= |c| && c[|c| - |b|..] == b
    ensures |a| <= |c| && c[|c| - |a|..] == a
  {
    if b != a {
      assert c[|c| - |a|..] == c[|c| - |b|..][1..];
    }
  }

  /** `after` is `before` later in its life: same identity and schedule, and
      neither flag has been switched back off. */
  predicate Descends(before: Reminder, after: Reminder) {
    && after.id == before.id && after.title == before.title
    && after.time == before.time && after.icon == before.icon
    && (before.completed ==> after.completed)
    && (before.notified ==> after.notified)
  }

  /** `r` descends from some reminder of `sources`. */
  predicate DescendsFromSome(sources: seq<Reminder>, r: Reminder) {
    exists j :: 0 <= j < |sources| && Descends(sources[j], r)
  }

  /** The reminders that a series of actions adds. */
  function AddedReminders(actions: seq<AppAction>): seq<Reminder>
    decreases |actions|
  {
    if actions == [] then []
    else (if actions[0].AddReminder? then [actions[0].reminder] else []) + AddedReminders(actions[1..])
  }

  /** Every reminder after one step is either the one ADD_REMINDER appended
      or a descendant of a reminder that was there before. */
  lemma FlagsNeverReset(s: AppState, a: AppAction, now: Stamp)
    ensures forall r :: r in Apply(s, a, now).reminders ==>
      (a.AddReminder? && r == a.reminder) || DescendsFromSome(s.reminders, r)
  {
    var t := Apply(s, a, now);
    forall r | r in t.reminders
      ensures (a.AddReminder? && r == a.reminder) || DescendsFromSome(s.reminders, r)
    {
      var i :| 0 <= i < |t.reminders| && t.reminders[i] == r;
      match a
      case DeleteReminder(id) =>
        assert r in s.reminders;
        var j :| 0 <= j < |s.reminders| && s.reminders[j] == r;
        assert Descends(s.reminders[j], r);
      case AddReminder(added) =>
        if i < |s.reminders| {
          assert Descends(s.reminders[i], r);
        }
      case _ =>
        assert Descends(s.reminders[i], r);
    }
  }

  lemma DescendsTransitive(a: Reminder, b: Reminder, c: Reminder)
    requires Descends(a, b) && Descends(b, c)
    ensures Descends(a, c)
  {
  }

  /** No series of actions switches `completed` or `notified` back off: every
      reminder at the end descends from one that was there at the start or
      from one that the series added. */
  lemma {:induction false} FlagsNeverResetAfterAll(s: AppState, actions: seq<AppAction>, stamps: seq<Stamp>)
    requires |stamps| == |actions|
    decreases |actions|
    ensures forall r :: r in ApplyAll(s, actions, stamps).reminders ==>
      DescendsFromSome(s.reminders + AddedReminders(actions), r)
  {
    var t := ApplyAll(s, actions, stamps);
    var sources := s.reminders + AddedReminders(actions);
    if actions == [] {
      forall r | r in t.reminders ensures DescendsFromSome(sources, r) {
        var i :| 0 <= i < |t.reminders| && t.reminders[i] == r;
        assert Descends(sources[i], r);
      }
    } else {
      var a := actions[0];
      var s1 := Apply(s, a, stamps[0]);
      var added := if a.AddReminder? then [a.reminder] else [];
      var later := AddedReminders(actions[1..]);
      var sources1 := s1.reminders + later;
      assert sources == s.reminders + added + later;
      FlagsNeverReset(s, a, stamps[0]);
      FlagsNeverResetAfterAll(s1, actions[1..], stamps[1..]);
      assert t == ApplyAll(s1, actions[1..], stamps[1..]);
      forall r | r in t.reminders ensures DescendsFromSome(sources, r) {
        var j1 :| 0 <= j1 < |sources1| && Descends(sources1[j1], r);
        if j1 < |s1.reminders| {
          var mid := s1.reminders[j1];
          assert mid in s1.reminders;
          if a.AddReminder? && mid == a.reminder {
            assert sources[|s.reminders|] == mid;
            assert Descends(sources[|s.reminders|], r);
          } else {
            var j0 :| 0 <= j0 < |s.reminders| && Descends(s.reminders[j0], mid);
            DescendsTransitive(s.reminders[j0], mid, r);
            assert sources[j0] == s.reminders[j0];
          }
        } else {
          var k := j1 - |s1.reminders|;
          assert sources1[j1] == later[k];
          assert sources[|s.reminders| + |added| + k] == later[k];
        }
      }
    }
  }

  /** An alert later in its life: unchanged, or acknowledged. */
  predicate AlertStep(before: Alert, after: Alert) {
    after == before || after == Acknowledged(before)
  }

  /** `after` is `before` after one step: the same alerts in the same
      order, each unchanged or acknowledged, or exactly `before` behind one
      new alert. */
  predicate AlertsFollow(before: seq<Alert>, after: seq<Alert>) {
    || (|after| == |before| && forall i :: 0 <= i < |before| ==> AlertStep(before[i], after[i]))
    || (|after| == |before| + 1 && after[1..] == before)
  }

  /** No action removes, reorders or rewrites an alert, and none re-arms an
      acknowledgement: each old alert is still there, behind at most one new
      alert, unchanged or with its SOS/FALL flag cleared. A new alert that
      demands acknowledgement can only come from TRIGGER_SOS. */
  lemma AlertsPersist(s: AppState, a: AppAction, now: Stamp)
    ensures AlertsFollow(s.alerts, Apply(s, a, now).alerts)
    ensures var t := Apply(s, a, now);
      |t.alerts| > |s.alerts| && t.alerts[0].requiresAcknowledgement == Some(true) ==> a.TriggerSos?
  {
    var t := Apply(s, a, now);
    match a
    case TriggerSos(payload) =>
      assert t.alerts[1..] == s.alerts;
    case LogEmotion(e) =>
      if !IsRepeatedEmotion(s.alerts, e) {
        assert t.alerts[1..] == s.alerts;
      } else {
        assert forall i :: 0 <= i < |s.alerts| ==> AlertStep(s.alerts[i], t.alerts[i]);
      }
    case AcknowledgeAlerts =>
      assert forall i :: 0 <= i < |s.alerts| ==> AlertStep(s.alerts[i], t.alerts[i]);
    case _ =>
      assert t.alerts == s.alerts;
      assert forall i :: 0 <= i < |s.alerts| ==> AlertStep(s.alerts[i], t.alerts[i]);
  }

  /** An alert two steps later is still one step later: acknowledging is
      idempotent. */
  lemma AlertStepTransitive(a: Alert, b: Alert, c: Alert)
    requires AlertStep(a, b) && AlertStep(b, c)
    ensures AlertStep(a, c)
  {
  }

  /** The alerts `before` survive as the tail of `after`, in order, each
      unchanged or acknowledged. */
  predicate AlertsSurvive(before: seq<Alert>, after: seq<Alert>) {
    && |before| <= |after|
    && forall i :: 0 <= i < |before| ==> AlertStep(before[i], after[|after| - |before| + i])
  }

  lemma AlertsFollowSurvive(before: seq<Alert>, after: seq<Alert>)
    requires AlertsFollow(before, after)
    ensures AlertsSurvive(before, after)
  {
    if |after| == |before| + 1 && after[1..] == before {
      forall i | 0 <= i < |before| ensures AlertStep(before[i], after[1 + i]) {
        assert after[1 + i] == after[1..][i];
      }
    }
  }

  lemma AlertsSurviveTransitive(a: seq<Alert>, b: seq<Alert>, c: seq<Alert>)
    requires AlertsSurvive(a, b) && AlertsSurvive(b, c)
    ensures AlertsSurvive(a, c)
  {
    forall i | 0 <= i < |a| ensures AlertStep(a[i], c[|c| - |a| + i]) {
      var j := |b| - |a| + i;
      assert AlertStep(a[i], b[j]);
      assert AlertStep(b[j], c[|c| - |b| + j]);
      AlertStepTransitive(a[i], b[j], c[|c| - |a| + i]);
    }
  }

  /** Over any series of dispatches no alert is removed, reordered or
      rewritten: the old alerts are the tail of the new list, in order,
      each unchanged or acknowledged. */
  lemma {:induction false} AlertsPersistAfterAll(s: AppState, actions: seq<AppAction>, stamps: seq<Stamp>)
    requires |stamps| == |actions|
    decreases |actions|
    ensures AlertsSurvive(s.alerts, ApplyAll(s, actions, stamps).alerts)
  {
    if actions == [] {
      assert forall i :: 0 <= i < |s.alerts| ==> AlertStep(s.alerts[i], s.alerts[i]);
    } else {
      var s1 := Apply(s, actions[0], stamps[0]);
      AlertsPersist(s, actions[0], stamps[0]);
      AlertsFollowSurvive(s.alerts, s1.alerts);
      AlertsPersistAfterAll(s1, actions[1..], stamps[1..]);
      AlertsSurviveTransitive(s.alerts, s1.alerts, ApplyAll(s, actions, stamps).alerts);
    }
  }
}
