/** A ground-service task (one row of the task table), reduced to the fields
    the matcher reads. */
module Tasks {
  import opened Wrappers
  import opened Values
  import opened Timestamps

  datatype Task = Task(
    fuuid: string,              // the flight the task serves
    taskTypeCode: string,
    taskTypeName: string,
    actualEnd: Option<string>,  // TASKACTUALENDDATETIME
    id: Option<string>)         // the task record ID

  /** A towing task is one whose type code is exactly `TRACT`. */
  predicate IsTowingTask(t: Task) {
    t.taskTypeCode == "TRACT"
  }

  /** The task's actual end time, None when the field is missing, empty or
      not of the form `%Y/%m/%d %H:%M`. */
  function GetActualEndTime(t: Task): (r: Option<DateTime>)
    ensures !Present(t.actualEnd) ==> r.None?
    ensures Present(t.actualEnd) ==> r == ParseMinuteTime(t.actualEnd.value)
    ensures r.Some? ==> ValidDateTime(r.value) && ParseMinuteTime(t.actualEnd.value) == r
  {
    if Present(t.actualEnd) then ParseMinuteTime(t.actualEnd.value) else None
  }

  /** The task type code is compared case-sensitively. */
  lemma TowingCodeIsCaseSensitive(t: Task)
    requires t.taskTypeCode in {"tract", "Tract", "TRACT "}
    ensures !IsTowingTask(t)
  {
  }

  /** An end time written `YYYY/MM/DD HH:MM` is read as the time it denotes. */
  lemma ActualEndTimeOfCanonical(t: Task, when: DateTime)
    requires ValidDateTime(when) && t.actualEnd == Some(FormatMinuteTime(when))
    ensures GetActualEndTime(t) == Some(when)
  {
    ParseFormatMinuteTime(when);
  }

  /** An end time that carries a seconds field is not read at all. */
  lemma ActualEndTimeWithSeconds(t: Task, when: DateTime, seconds: string)
    requires ValidDateTime(when) && t.actualEnd == Some(FormatMinuteTime(when) + [':'] + seconds)
    ensures GetActualEndTime(t) == None
  {
    SecondsFieldRejected(when, seconds);
  }
}
