/** Entities of the caregiving companion's shared household state and the
    actions that callers may dispatch against it.

    The TypeScript `types` module is not part of this model; the shapes here
    are the ones the reducer and the scheduler read and build. Every string
    the application treats as opaque (ids, URLs, icon tags, timestamps) is a
    plain `string`. */
module Types {

  datatype Option<+T> = None | Some(value: T)

  /** A scheduled task. `time` is the caregiver-entered "HH:MM" text;
      `completed` is set by the patient and `notified` by the scheduler. */
  datatype Reminder = Reminder(
    id: string,
    title: string,
    time: string,
    completed: bool,
    icon: string,
    notified: bool)

  datatype AlertType = SOS | FALL | EMOTION

  /** An alert. `kind` is the alert's `type` field, renamed because `type`
      is a keyword here. `requiresAcknowledgement` is an optional field: an
      emotion alert built by the reducer leaves it out (`None`). */
  datatype Alert = Alert(
    id: string,
    message: string,
    timestamp: string,
    kind: AlertType,
    requiresAcknowledgement: Option<bool>)

  datatype Memory = Memory(id: string, imageUrl: string, caption: string, sharedBy: string)

  datatype EventLogItem = EventLogItem(id: string, text: string, timestamp: string, icon: string)

  datatype SharedQuote = SharedQuote(id: string, text: string, timestamp: string)

  datatype SenderRole = CAREGIVER | FAMILY | PATIENT

  /** `duration` is a number of seconds; only whole numbers occur in this model. */
  datatype VoiceMessage = VoiceMessage(
    id: string,
    audioUrl: string,
    duration: int,
    senderRole: SenderRole,
    senderName: string,
    timestamp: string)

  /** The dispatchable actions. `Other` stands for any action object whose
      `type` tag the reducer does not recognise. */
  datatype AppAction =
    | CompleteReminder(reminderId: string)
    | AddReminder(reminder: Reminder)
    | DeleteReminder(reminderId: string)
    | TriggerSos(alert: Alert)
    | AddMemory(memory: Memory)
    | AddQuote(quote: SharedQuote)
    | AddVoiceMessage(voiceMessage: VoiceMessage)
    | LogEmotion(emotion: string)
    | AcknowledgeAlerts
    | MarkReminderNotified(reminderId: string)
    | Other(tag: string)

  /** One reading of the host clock: `iso` is what `toISOString()` gives
      (used as a fresh id), `locale` what `toLocaleString()` gives (used as
      a human-readable timestamp). */
  datatype Stamp = Stamp(iso: string, locale: string)
}
