/** The edit-officer modal: its own 24-hour to 12-hour conversion, which
    lets an empty time through, the updates it hands to the save, the id the
    save is addressed to, and its saving/error state. */
module EditOfficerModal {
  import opened Js
  import opened ListHook
  import Strings
  import AddOfficerModal
  import EditOfficerForm

  const UpdateFailed: string := EditOfficerForm.SaveFailed

  const ScheduleFields: set<string> :=
    {"scheduleStartDate", "scheduleEndDate", "scheduleStartTime", "scheduleEndTime"}

  /** `formatTime(time24)`: '' for a falsy value, the add modal's conversion
      for a string, and a TypeError from `.split` for anything else. */
  function FormatTime(v: Option<Value>): (r: Result<string>)
    ensures !Truthy(v) ==> r == Ok("")
    ensures Truthy(v) && !v.value.Str? ==> r == Err(TypeErrorMessage)
    ensures Truthy(v) && v.value.Str? ==> r == Ok(AddOfficerModal.FormatTime(v.value.s))
  {
    if !Truthy(v) then Ok("")
    else match AsString(v)
      case None => Err(TypeErrorMessage)
      case Some(s) => Ok(AddOfficerModal.FormatTime(s))
  }

  /** `x ? dateInputToISO(x) : null`, with `dateInputToISO` given as toIso. */
  function ScheduleDate(v: Option<Value>, toIso: Value -> Value): (r: Value)
    ensures Truthy(v) ==> r == toIso(v.value)
    ensures !Truthy(v) ==> r == Null
  {
    if Truthy(v) then toIso(v.value) else Null
  }

  /** `{ ...base, <the four schedule fields> }` */
  function WithSchedule(base: Record, startDate: Value, endDate: Value, startTime: Value, endTime: Value): (r: Record)
    ensures r.Keys == base.Keys + ScheduleFields
    ensures forall k :: k !in ScheduleFields ==> Get(r, k) == Get(base, k)
  {
    base + map["scheduleStartDate" := startDate, "scheduleEndDate" := endDate,
               "scheduleStartTime" := startTime, "scheduleEndTime" := endTime]
  }

  /** The four schedule fields hold the given values. */
  lemma WithScheduleValues(base: Record, startDate: Value, endDate: Value, startTime: Value, endTime: Value)
    ensures var r := WithSchedule(base, startDate, endDate, startTime, endTime);
      && Get(r, "scheduleStartDate") == Some(startDate) && Get(r, "scheduleEndDate") == Some(endDate)
      && Get(r, "scheduleStartTime") == Some(startTime) && Get(r, "scheduleEndTime") == Some(endTime)
  {
  }

  /** `updates`: the form fields with the dates converted and the times in
      12-hour form. The start time is formatted, and may throw, first. */
  function Updates(d: Record, toIso: Value -> Value): (r: Result<Record>)
    ensures r.Ok? ==> r.value.Keys == d.Keys + ScheduleFields
    ensures r.Ok? ==> forall k :: k !in ScheduleFields ==> Get(r.value, k) == Get(d, k)
  {
    var start := FormatTime(Get(d, "scheduleStartTime"));
    var end := FormatTime(Get(d, "scheduleEndTime"));
    if start.Err? then Err(start.message)
    else if end.Err? then Err(end.message)
    else Ok(WithSchedule(d, ScheduleDate(Get(d, "scheduleStartDate"), toIso),
                         ScheduleDate(Get(d, "scheduleEndDate"), toIso), Str(start.value), Str(end.value)))
  }

  /** A schedule time that is present, truthy and not a string.  */
  predicate BadTime(v: Option<Value>)
  {
    Truthy(v) && !v.value.Str?
  }

  /** The updates throw exactly when one of the two times is a truthy value
      that is not a string. */
  lemma UpdatesThrowIff(d: Record, toIso: Value -> Value)
    ensures Updates(d, toIso).Err? <==> BadTime(Get(d, "scheduleStartTime")) || BadTime(Get(d, "scheduleEndTime"))
    ensures Updates(d, toIso).Err? ==> Updates(d, toIso).message == TypeErrorMessage
  {
  }

  /** The dates go through toIso when set and become null when empty; the
      times are the formatted ones. */
  lemma UpdatesValues(d: Record, toIso: Value -> Value)
    requires Updates(d, toIso).Ok?
    ensures var u := Updates(d, toIso).value;
      && Get(u, "scheduleStartDate") == Some(ScheduleDate(Get(d, "scheduleStartDate"), toIso))
      && Get(u, "scheduleEndDate") == Some(ScheduleDate(Get(d, "scheduleEndDate"), toIso))
      && Get(u, "scheduleStartTime") == Some(Str(FormatTime(Get(d, "scheduleStartTime")).value))
      && Get(u, "scheduleEndTime") == Some(Str(FormatTime(Get(d, "scheduleEndTime")).value))
  {
    var start := FormatTime(Get(d, "scheduleStartTime"));
    var end := FormatTime(Get(d, "scheduleEndTime"));
    WithScheduleValues(d, ScheduleDate(Get(d, "scheduleStartDate"), toIso),
                       ScheduleDate(Get(d, "scheduleEndDate"), toIso), Str(start.value), Str(end.value));
  }

  /** A time the edit form shows as `hh:mm` is stored so that the form shows
      it again unchanged when the officer is edited next. */
  lemma TimeReadsBack(v: Option<Value>, hh: string, mm: string)
    requires v == Some(Str(hh + ":" + mm))
    requires AddOfficerModal.TwoDigits(hh) && AddOfficerModal.TwoDigits(mm) && Strings.DigitsValue(hh) < 24
    ensures FormatTime(v).Ok?
    ensures EditOfficerForm.ParseTime(Some(Str(FormatTime(v).value))) == Ok(hh + ":" + mm)
  {
    var f := AddOfficerModal.FormatTime(hh + ":" + mm);
    FormattedNotEmpty(hh, mm);
    AddOfficerModal.ParseAfterFormat(hh, mm);
    ReadFormatted(f, hh + ":" + mm);
  }

  lemma FormattedNotEmpty(hh: string, mm: string)
    requires AddOfficerModal.TwoDigits(hh) && AddOfficerModal.TwoDigits(mm)
    ensures AddOfficerModal.FormatTime(hh + ":" + mm) != ""
  {
    AddOfficerModal.FormatTimeShape(hh, mm);
  }

  /** The edit form reads a non-empty stored time through its text. */
  lemma ReadFormatted(f: string, t: string)
    requires f != "" && EditOfficerForm.ParseTimeText(f) == t
    ensures EditOfficerForm.ParseTime(Some(Str(f))) == Ok(t)
  {
  }

  /** A time the edit form shows as empty stays empty. */
  lemma EmptyTimeReadsBack(v: Option<Value>)
    requires v == Some(Str(""))
    ensures FormatTime(v) == Ok("")
    ensures EditOfficerForm.ParseTime(Some(Str(FormatTime(v).value))) == Ok("")
  {
  }

  /** `officer.userId || officer.id`; reading a property of a missing
      officer throws. */
  function Target(officer: Option<Record>): (r: Result<Option<Value>>)
    ensures officer.None? ==> r == Err(TypeErrorMessage)
    ensures officer.Some? && Truthy(Get(officer.value, "userId")) ==> r == Ok(Get(officer.value, "userId"))
    ensures officer.Some? && !Truthy(Get(officer.value, "userId")) ==> r == Ok(Get(officer.value, "id"))
  {
    if officer.None? then Err(TypeErrorMessage)
    else Ok(Or(Get(officer.value, "userId"), Get(officer.value, "id")))
  }

  /** The arguments of `onSave(id, updates)`. */
  datatype SaveCall = SaveCall(id: Option<Value>, updates: Record)

  /** Everything `handleSave` evaluates before awaiting the save: the updates
      first, then the id. */
  function Attempt(officer: Option<Record>, d: Record, toIso: Value -> Value): (r: Result<SaveCall>)
    ensures r.Ok? <==> Updates(d, toIso).Ok? && officer.Some?
    ensures r.Ok? ==> r.value == SaveCall(Target(officer).value, Updates(d, toIso).value)
    ensures r.Err? ==> r.message == TypeErrorMessage
  {
    match Updates(d, toIso)
    case Err(m) => Err(m)
    case Ok(u) =>
      match Target(officer)
      case Err(m) => Err(m)
      case Ok(id) => Ok(SaveCall(id, u))
  }

  /** The error the form reads after its awaited submit is the one `Settle`
      leaves on the modal. */
  lemma FormShowsModalError(thrown: Option<string>)
    ensures thrown.None? ==> EditOfficerForm.SaveError(thrown) == ""
    ensures thrown.Some? ==> EditOfficerForm.SaveError(thrown) == ErrorText(thrown.value, UpdateFailed)
  {
  }

  /** The modal's own state. */
  class Modal {
    var isSaving: bool
    var error: string

    constructor ()
      ensures !isSaving && error == ""
    {
      isSaving := false;
      error := "";
    }

    /** `handleSave`: when the updates and the id can be computed they go to
        `onSave`; the modal closes when the save resolves, and otherwise
        shows the thrown message or 'Failed to update officer' (`failure` is
        the save's rejection). It is no longer saving either way. */
    method HandleSave(officer: Option<Record>, d: Record, toIso: Value -> Value, failure: Option<string>)
      returns (call: Option<SaveCall>, closed: bool)
      modifies this
      ensures var a := Attempt(officer, d, toIso);
        && (a.Ok? ==> call == Some(a.value)) && (a.Err? ==> call == None)
        && (closed <==> a.Ok? && failure.None?)
        && (a.Err? ==> error == ErrorText(a.message, UpdateFailed))
        && (a.Ok? && failure.Some? ==> error == ErrorText(failure.value, UpdateFailed))
      ensures !isSaving
      ensures closed ==> error == ""
      ensures !closed ==> error != ""
    {
      var a := Attempt(officer, d, toIso);
      var thrown: Option<string>;
      if a.Ok? {
        call := Some(a.value);
        thrown := failure;
      } else {
        call := None;
        thrown := Some(a.message);
      }
      closed := Settle(thrown);
    }

    /** The outcome of the save on the modal's state. */
    method Settle(thrown: Option<string>) returns (closed: bool)
      modifies this
      ensures !isSaving
      ensures closed <==> thrown.None?
      ensures thrown.None? ==> error == ""
      ensures thrown.Some? ==> error == ErrorText(thrown.value, UpdateFailed) && error != ""
    {
      isSaving := true;
      error := "";
      if thrown.Some? {
        error := ErrorText(thrown.value, UpdateFailed);
        closed := false;
      } else {
        closed := true;
      }
      isSaving := false;
    }
  }
}
