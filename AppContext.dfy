/** The application state store: the `AppState` aggregate, the seed state
    a session starts from, and the reducer `Apply`, a total pure function
    from a state and an action to the next state.

    The host clock is not read here: each reducer step receives one
    `Stamp` that supplies the fresh id and the locale timestamp. */
module AppContext {
  import opened Types

  datatype AppState = AppState(
    reminders: seq<Reminder>,
    alerts: seq<Alert>,
    memories: seq<Memory>,
    eventLog: seq<EventLogItem>,
    sharedQuote: Option<SharedQuote>,
    voiceMessages: seq<VoiceMessage>)

  // The two sample voice-message URLs come from an asset module that is not
  // part of this model; they are opaque strings.
  const LeoVoiceUrl: string := "VOICE_MESSAGE_LEO_URL"
  const SamVoiceUrl: string := "VOICE_MESSAGE_SAM_URL"

  /** The seed dataset. `locale` is the clock reading taken when the module
      loads; it stands for both the log entry's and the quote's timestamps,
      which are two separate readings in the program. */
  function InitialState(locale: string): (s: AppState)
    ensures |s.reminders| == 3 && |s.memories| == 1 && |s.eventLog| == 1 && |s.voiceMessages| == 2
    ensures s.alerts == [] && s.sharedQuote.Some?
  {
    AppState(
      reminders := [
        Reminder("1", "Take Morning Pills", "08:00", false, "medication", false),
        Reminder("2", "Eat Breakfast", "08:30", false, "meal", false),
        Reminder("3", "Drink a glass of water", "10:00", false, "hydration", false)
      ],
      alerts := [],
      memories := [
        Memory("mem1",
          "https://images.unsplash.com/photo-1543269865-cbf427effbad?q=80&w=800&auto=format&fit=crop",
          "That wonderful day we spent at the beach with the grandkids. Remember how much they loved the ice cream?",
          "Your Daughter, Jane")
      ],
      eventLog := [EventLogItem("ev1", ScheduledText("Take Morning Pills"), locale, "task")],
      sharedQuote := Some(SharedQuote("q1", "Just a little note to say we are thinking of you today!", locale)),
      voiceMessages := [
        VoiceMessage("vm1", LeoVoiceUrl, 2, SenderRole.FAMILY, "Your Grandson, Leo", "10:30 AM"),
        VoiceMessage("vm2", SamVoiceUrl, 3, SenderRole.CAREGIVER, "Your Caregiver, Sam", "11:15 AM")
      ])
  }

  // ---------------------------------------------------------------------
  // Audit-log and alert texts

  function ScheduledText(title: string): string { "Caregiver scheduled \"" + title + "\"." }

  function CompletedText(title: string): string { "Patient marked \"" + title + "\" as complete." }

  function SosText(kind: AlertType): string {
    if kind == FALL then "Potential fall detected!" else "Patient triggered an SOS alert!"
  }

  function SosIcon(kind: AlertType): string { if kind == FALL then "fall" else "sos" }

  function MemoryText(sharedBy: string): string { sharedBy + " shared a new memory." }

  function EmotionAlertText(emotion: string): string { "Patient may be feeling: " + emotion }

  function EmotionLogText(emotion: string): string { "AI companion detected emotion: " + emotion + "." }

  /** The title a template interpolates for an optional reminder: a missing
      reminder renders as the text "undefined". */
  function TitleOf(found: Option<Reminder>): string {
    match found
    case Some(r) => r.title
    case None => "undefined"
  }

  // ---------------------------------------------------------------------
  // Sequence rewrites used by the reducer

  /** The first reminder with the given id, as `Array.prototype.find` gives it. */
  function FindReminder(rs: seq<Reminder>, id: string): (found: Option<Reminder>)
    ensures found.None? <==> forall i :: 0 <= i < |rs| ==> rs[i].id != id
    ensures found.Some? ==> exists i :: 0 <= i < |rs| && rs[i] == found.value && rs[i].id == id &&
                                        forall j :: 0 <= j < i ==> rs[j].id != id
  {
    if rs == [] then None
    else if rs[0].id == id then Some(rs[0])
    else
      var rest := FindReminder(rs[1..], id);
      assert rest.Some? ==> exists i :: 0 <= i < |rs| && rs[i] == rest.value && rs[i].id == id &&
                                        forall j :: 0 <= j < i ==> rs[j].id != id by {
        if rest.Some? {
          var k :| 0 <= k < |rs| - 1 && rs[1..][k] == rest.value && rs[1..][k].id == id &&
                   forall j :: 0 <= j < k ==> rs[1..][j].id != id;
          assert forall j :: 0 <= j < k + 1 ==> rs[j].id != id by {
            forall j | 0 <= j < k + 1 ensures rs[j].id != id {
              if j > 0 { assert rs[j] == rs[1..][j - 1]; }
            }
          }
        }
      }
      rest
  }

  datatype ReminderFlag = Completed | Notified

  /** The reminder with one of its two flags turned on. */
  function Raise(r: Reminder, flag: ReminderFlag): Reminder {
    match flag
    case Completed => r.(completed := true)
    case Notified => r.(notified := true)
  }

  /** `reminders.map(r => r.id === id ? {...r, <flag>: true} : r)`. */
  function MarkReminders(rs: seq<Reminder>, id: string, flag: ReminderFlag): (marked: seq<Reminder>)
    ensures |marked| == |rs|
    ensures forall i :: 0 <= i < |rs| ==> marked[i] == if rs[i].id == id then Raise(rs[i], flag) else rs[i]
  {
    if rs == [] then []
    else [if rs[0].id == id then Raise(rs[0], flag) else rs[0]] + MarkReminders(rs[1..], id, flag)
  }

  /** `reminders.filter(r => r.id !== id)`. */
  function RemoveReminders(rs: seq<Reminder>, id: string): (kept: seq<Reminder>)
    ensures |kept| <= |rs|
    ensures forall r :: r in kept <==> r in rs && r.id != id
  {
    if rs == [] then []
    else if rs[0].id == id then RemoveReminders(rs[1..], id)
    else [rs[0]] + RemoveReminders(rs[1..], id)
  }

  predicate IsSosOrFall(kind: AlertType) { kind == SOS || kind == FALL }

  /** The alert a TRIGGER_SOS payload becomes: a copy whose acknowledgement
      flag is forced on for SOS and FALL alerts. */
  function NewSosAlert(payload: Alert): Alert {
    if IsSosOrFall(payload.kind) then payload.(requiresAcknowledgement := Some(true)) else payload
  }

  /** The alert after a caregiver acknowledgement. */
  function Acknowledged(a: Alert): Alert {
    if IsSosOrFall(a.kind) then a.(requiresAcknowledgement := Some(false)) else a
  }

  /** `alerts.map(...)` clearing the acknowledgement flag of SOS and FALL alerts. */
  function AcknowledgeAll(alerts: seq<Alert>): (acked: seq<Alert>)
    ensures |acked| == |alerts|
    ensures forall i :: 0 <= i < |alerts| ==> acked[i] == Acknowledged(alerts[i])
  {
    if alerts == [] then [] else [Acknowledged(alerts[0])] + AcknowledgeAll(alerts[1..])
  }

  /** JavaScript's `String.prototype.includes`: `needle` occurs in `hay`. */
  predicate Contains(hay: string, needle: string)
    decreases |hay|
  {
    (|needle| <= |hay| && hay[..|needle|] == needle) || (hay != [] && Contains(hay[1..], needle))
  }

  /** The dedup test of LOG_EMOTION: the newest alert is an emotion alert
      whose message already mentions the emotion. */
  predicate IsRepeatedEmotion(alerts: seq<Alert>, emotion: string) {
    |alerts| > 0 && alerts[0].kind == EMOTION && Contains(alerts[0].message, emotion)
  }

  // ---------------------------------------------------------------------
  // The reducer

  function Apply(s: AppState, action: AppAction, now: Stamp): AppState {
    match action
    case CompleteReminder(id) =>
      var entry := EventLogItem(now.iso, CompletedText(TitleOf(FindReminder(s.reminders, id))), now.locale, "reminder");
      s.(reminders := MarkReminders(s.reminders, id, Completed), eventLog := [entry] + s.eventLog)
    case AddReminder(r) =>
      var entry := EventLogItem(now.iso, ScheduledText(r.title), now.locale, "task");
      s.(reminders := s.reminders + [r], eventLog := [entry] + s.eventLog)
    case DeleteReminder(id) =>
      s.(reminders := RemoveReminders(s.reminders, id))
    case TriggerSos(payload) =>
      var entry := EventLogItem(now.iso, SosText(payload.kind), now.locale, SosIcon(payload.kind));
      s.(alerts := [NewSosAlert(payload)] + s.alerts, eventLog := [entry] + s.eventLog)
    case AddMemory(m) =>
      var entry := EventLogItem(now.iso, MemoryText(m.sharedBy), now.locale, "memory");
      s.(memories := [m] + s.memories, eventLog := [entry] + s.eventLog)
    case AddQuote(q) =>
      s.(sharedQuote := Some(q))
    case AddVoiceMessage(v) =>
      s.(voiceMessages := [v] + s.voiceMessages)
    case LogEmotion(e) =>
      if IsRepeatedEmotion(s.alerts, e) then s
      else
        var alert := Alert(now.iso, EmotionAlertText(e), now.locale, EMOTION, None);
        var entry := EventLogItem(now.iso, EmotionLogText(e), now.locale, "emotion");
        s.(alerts := [alert] + s.alerts, eventLog := [entry] + s.eventLog)
    case AcknowledgeAlerts =>
      s.(alerts := AcknowledgeAll(s.alerts))
    case MarkReminderNotified(id) =>
      s.(reminders := MarkReminders(s.reminders, id, Notified))
    case Other(_) =>
      s
  }

  /** Dispatching a series of actions in order; every dispatch reads the
      clock afresh, `stamps[k]` being the reading for `actions[k]`. */
  function ApplyAll(s: AppState, actions: seq<AppAction>, stamps: seq<Stamp>): AppState
    requires |stamps| == |actions|
    decreases |actions|
  {
    if actions == [] then s else ApplyAll(Apply(s, actions[0], stamps[0]), actions[1..], stamps[1..])
  }
}
