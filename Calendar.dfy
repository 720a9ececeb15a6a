/** The Google Calendar client's conversion of an event to a task. Event
    times are integer microseconds, already parsed from their ISO 8601 form. */
module Calendar {
  import opened Wrappers
  import opened Numerics
  import opened Tasks

  /** The `start` or `end` object of an event: `dateTime` is absent for an
      all-day event, whose `date` the conversion never reads. */
  datatype EventTime = EventTime(dateTime: Option<Instant>)

  /** An event; None stands for an absent key. */
  datatype Event = Event(summary: Option<string>, description: Option<string>, start: Option<EventTime>, end: Option<EventTime>)

  /** The exception a timed event without an end time raises. */
  datatype ConversionError = KeyError

  const MicrosPerMinute: int := 60000000
  const MinimumMinutes: real := 15.0

  /** The `dateTime` of a start or end, treating an absent object as `{}`. */
  function DateTimeOf(t: Option<EventTime>): Option<Instant> {
    if t.Some? then t.value.dateTime else None
  }

  /** The duration in (fractional) minutes. */
  function DurationMinutes(start: Instant, end: Instant): real {
    (end - start) as real / MicrosPerMinute as real
  }

  /** `GoogleCalendarClient.event_to_task`: Success(None) for a skipped event. */
  function EventToTask(e: Event): (r: Result<Option<TaskData>, ConversionError>)
    ensures DateTimeOf(e.start).None? ==> r == Success(None)
    ensures r.Failure? <==> DateTimeOf(e.start).Some? && DateTimeOf(e.end).None?
    ensures r.Success? && r.value.Some? ==>
              r.value.value.source == CalendarSource && r.value.value.status == Pending &&
              r.value.value.estimatedTime >= 15 &&
              r.value.value.dueDate == DateTimeOf(e.end)
  {
    if DateTimeOf(e.start).None? then Success(None)
    else if DateTimeOf(e.end).None? then Failure(KeyError)
    else
      var startTime, endTime := DateTimeOf(e.start).value, DateTimeOf(e.end).value;
      var duration := DurationMinutes(startTime, endTime);
      if duration < MinimumMinutes then Success(None)
      else
        Success(Some(TaskData(
          e.summary.GetOr("Untitled Event"),
          e.description.GetOr(""),
          Some(endTime),
          Trunc(duration),
          CalendarSource,
          Pending)))
  }

  // ---------------------------------------------------------------------
  // Properties

  /** A timed event with an end becomes a task exactly when it lasts at
      least 15 minutes, i.e. 900 seconds; an end before the start never
      qualifies. */
  lemma IncludedIff(e: Event)
    requires DateTimeOf(e.start).Some? && DateTimeOf(e.end).Some?
    ensures var s, t := DateTimeOf(e.start).value, DateTimeOf(e.end).value;
            EventToTask(e).Success? &&
            (EventToTask(e).value.Some? <==> t - s >= 15 * MicrosPerMinute)
    ensures DateTimeOf(e.end).value < DateTimeOf(e.start).value ==> EventToTask(e) == Success(None)
  {
    var s, t := DateTimeOf(e.start).value, DateTimeOf(e.end).value;
    assert DurationMinutes(s, t) * 60000000.0 == (t - s) as real;
  }

  /** The estimate is the whole number of minutes the event lasts. */
  lemma EstimateIsWholeMinutes(e: Event)
    requires EventToTask(e).Success? && EventToTask(e).value.Some?
    ensures var s, t := DateTimeOf(e.start).value, DateTimeOf(e.end).value;
            EventToTask(e).value.value.estimatedTime == (t - s) / MicrosPerMinute
  {
    var s, t := DateTimeOf(e.start).value, DateTimeOf(e.end).value;
    var d := DurationMinutes(s, t);
    var q := (t - s) / MicrosPerMinute;
    assert d * 60000000.0 == (t - s) as real;
    assert (q as real) * 60000000.0 <= (t - s) as real < (q as real + 1.0) * 60000000.0;
    assert q as real <= d < q as real + 1.0;
  }

  /** The placeholders of an event without a summary or a description. */
  lemma DefaultsRule(e: Event)
    requires EventToTask(e).Success? && EventToTask(e).value.Some?
    ensures var task := EventToTask(e).value.value;
            (e.summary.None? ==> task.title == "Untitled Event") &&
            (e.summary.Some? ==> task.title == e.summary.value) &&
            (e.description.None? ==> task.description == "") &&
            (e.description.Some? ==> task.description == e.description.value)
  {
  }

  /** A one-hour meeting becomes a 60-minute pending task due at its end. */
  lemma OneHourExample()
    ensures EventToTask(Event(Some("Study group"), None, Some(EventTime(Some(0))), Some(EventTime(Some(3600000000))))) ==
              Success(Some(TaskData("Study group", "", Some(3600000000), 60, CalendarSource, Pending)))
  {
    assert DurationMinutes(0, 3600000000) == 60.0;
  }

  /** An all-day event (start without `dateTime`) is skipped. */
  lemma AllDayExample()
    ensures EventToTask(Event(Some("Holiday"), None, Some(EventTime(None)), Some(EventTime(None)))) == Success(None)
  {
  }
}
