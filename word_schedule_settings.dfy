/** The user's daily window: how many words, and between which minutes of the day. */
module ScheduleSettings {
  datatype WordScheduleSettings = WordScheduleSettings(wordsPerDay: int, startMinutes: int, endMinutes: int)

  /** `defaultSettings`: five words between 07:00 and 21:00. */
  const DefaultSettings: WordScheduleSettings := WordScheduleSettings(5, 7 * 60, 21 * 60)

  /** The window runs past midnight; an empty-looking window (start == end) counts as a full day. */
  predicate CrossesMidnight(s: WordScheduleSettings) {
    s.endMinutes <= s.startMinutes
  }

  lemma DefaultSettingsValues()
    ensures DefaultSettings.wordsPerDay == 5
    ensures DefaultSettings.startMinutes == 420 && DefaultSettings.endMinutes == 1260
    ensures !CrossesMidnight(DefaultSettings)
  {
  }

  /** Equal start and end minutes cross midnight, whatever the minute. */
  lemma EqualBoundsCrossMidnight(s: WordScheduleSettings)
    requires s.startMinutes == s.endMinutes
    ensures CrossesMidnight(s)
  {
  }
}
