/** The add-officer modal: the 24-hour to 12-hour conversion of the schedule
    times, the officer record it hands to the save, and its saving/error
    state. The 12-hour text is what the edit form reads back. */
module AddOfficerModal {
  import opened Js
  import opened Strings
  import opened ListHook
  import AddOfficerForm
  import EditOfficerForm

  const AddFailed: string := AddOfficerForm.SaveFailed

  /** `a % b` for a positive b, truncating toward zero as JavaScript does. */
  function JsRem(a: int, b: int): (r: int)
    requires b > 0
    ensures a >= 0 ==> 0 <= r < b && r == a % b
    ensures a < 0 ==> -b < r <= 0 && r == -((-a) % b)
  {
    if a >= 0 then a % b else -((-a) % b)
  }

  /** `hour >= 12 ? 'PM' : 'AM'`, where `NaN >= 12` is false. */
  function Meridiem(hour: Option<int>): (m: string)
    ensures m == "PM" || m == "AM"
  {
    if hour.Some? && hour.value >= 12 then "PM" else "AM"
  }

  /** `hour % 12 || 12`: a zero or `NaN` remainder becomes 12. */
  function Hour12(hour: Option<int>): (h: int)
    ensures hour.Some? && hour.value >= 0 ==> 1 <= h <= 12 && h % 12 == hour.value % 12
    ensures hour.None? ==> h == 12
  {
    if hour.None? then 12
    else
      var r := JsRem(hour.value, 12);
      if r == 0 then 12 else r
  }

  /** `formatTime(time24)`: split at ':', read the hour with `parseInt`, and
      print `hh:mm AM|PM`; a missing minutes part prints as `undefined`. */
  function FormatTime(time24: string): string
  {
    var parts := Split(time24, ':');
    var hour := ParseInt(parts[0]);
    var minutes := if |parts| > 1 then parts[1] else "undefined";
    PadStart(IntToString(Hour12(hour)), 2, '0') + ":" + minutes + " " + Meridiem(hour)
  }

  /** A two-digit time field of an `<input type="time">` value. */
  predicate TwoDigits(s: string)
  {
    |s| == 2 && AllDigits(s)
  }

  /** A number below 100 prints, padded, as two digits of the same value. */
  lemma PaddedTwoDigits(n: nat)
    requires n < 100
    ensures TwoDigits(PadStart(NatToString(n), 2, '0'))
    ensures DigitsValue(PadStart(NatToString(n), 2, '0')) == n
  {
    NatToStringShort(n);
    PadStartKeepsValue(NatToString(n), 2);
    NatToStringRoundTrip(n);
  }

  /** How `formatTime` splits and reads `hh:mm`. */
  lemma FormatTimeOf(hh: string, mm: string)
    requires TwoDigits(hh) && TwoDigits(mm)
    ensures var v := DigitsValue(hh);
      FormatTime(hh + ":" + mm) == PadStart(NatToString(Hour12(Some(v))), 2, '0') + ":" + mm + " " + Meridiem(Some(v))
  {
    SplitTime(hh, mm);
    assert hh + [] == hh;
    ParseIntOfDigits(hh, []);
  }

  lemma SplitTime(hh: string, mm: string)
    requires TwoDigits(hh) && TwoDigits(mm)
    ensures Split(hh + ":" + mm, ':') == [hh, mm]
  {
    assert ':' !in hh;
    assert ':' !in mm;
    SplitAtFirst(hh, ':', mm);
    SplitNoSeparator(mm, ':');
  }

  lemma {:induction false} Pieces(p: string, mm: string, m: string)
    requires |p| == 2 && |mm| == 2 && |m| == 2
    ensures var f := p + ":" + mm + " " + m;
      |f| == 8 && f[..2] == p && f[2..6] == ":" + mm + " " && f[6..] == m
  {
  }

  /** `formatTime("hh:mm")` is `HH:mm AM|PM`: the marker is PM exactly
      from noon on, and HH is the hour on the 12-hour clock, in 1..12 and
      equal to hh modulo 12. */
  lemma FormatTimeShape(hh: string, mm: string)
    requires TwoDigits(hh) && TwoDigits(mm)
    ensures var f := FormatTime(hh + ":" + mm);
      && |f| == 8 && TwoDigits(f[..2]) && f[2..6] == ":" + mm + " "
      && 1 <= DigitsValue(f[..2]) <= 12 && DigitsValue(f[..2]) % 12 == DigitsValue(hh) % 12
      && (f[6..] == "PM" <==> DigitsValue(hh) >= 12) && (f[6..] == "AM" <==> DigitsValue(hh) < 12)
  {
    var v := DigitsValue(hh);
    var h12 := Hour12(Some(v));
    var p := PadStart(NatToString(h12), 2, '0');
    var m := Meridiem(Some(v));
    FormatTimeOf(hh, mm);
    PaddedTwoDigits(h12);
    Pieces(p, mm, m);
  }

  /** On the 24-hour clock, the 12-hour reading and its marker take a time
      back to the hour it came from. */
  lemma Hour12Then24(v: nat)
    requires v < 24
    ensures EditOfficerForm.Hour24(Hour12(Some(v)), Meridiem(Some(v))) == v
  {
  }

  /** `parseTime(formatTime("hh:mm")) == "hh:mm"` for every time of day. */
  lemma ParseAfterFormat(hh: string, mm: string)
    requires TwoDigits(hh) && TwoDigits(mm) && DigitsValue(hh) < 24
    ensures EditOfficerForm.ParseTimeText(FormatTime(hh + ":" + mm)) == hh + ":" + mm
  {
    var v := DigitsValue(hh);
    var h12 := Hour12(Some(v));
    var p := PadStart(NatToString(h12), 2, '0');
    FormatTimeOf(hh, mm);
    PaddedTwoDigits(h12);
    ReadTwelveHour(p, mm, Meridiem(Some(v)));
    Hour12Then24(v);
    TwoDigitsRoundTrip(hh);
  }

  /** The edit form reads `hh:mm AM|PM` as the hour on the 24-hour clock. */
  lemma ReadTwelveHour(p: string, mm: string, m: string)
    requires TwoDigits(p) && TwoDigits(mm) && (m == "AM" || m == "PM")
    ensures EditOfficerForm.ParseTimeText(p + ":" + mm + " " + m) ==
      PadStart(NatToString(EditOfficerForm.Hour24(DigitsValue(p), m)), 2, '0') + ":" + mm
  {
    assert (" ")[0] == ' ';
    EditOfficerForm.UpperMarkers();
    EditOfficerForm.ParseTwelveHourText(p, mm, " ", m);
  }

  // ---- the modal ----

  const RewrittenFields: set<string> :=
    {"scheduleStartDate", "scheduleEndDate", "scheduleStartTime", "scheduleEndTime", "status"}

  /** `initialFormData`: empty text fields, today's date as both schedule
      dates, and the nine-to-five times. */
  function InitialFormData(today: string): (d: map<string, string>)
    ensures d.Keys == AddOfficerForm.Fields
  {
    map["name" := "", "email" := "", "mobileNumber" := "", "password" := "", "selectedCouncil" := "",
        "scheduleStartDate" := today, "scheduleEndDate" := today,
        "scheduleStartTime" := "09:00", "scheduleEndTime" := "17:00"]
  }

  /** The form fields as a record. */
  function AsRecord(d: map<string, string>): (r: Record)
    ensures r.Keys == d.Keys && forall k :: k in d ==> r[k] == Str(d[k])
  {
    map k | k in d :: Str(d[k])
  }

  /** `{ ...base, <the four schedule fields>, status: 'online' }` */
  function WithSchedule(base: Record, startDate: Value, endDate: Value, startTime: Value, endTime: Value): (r: Record)
    ensures r.Keys == base.Keys + RewrittenFields
    ensures forall k :: k in base && k !in RewrittenFields ==> r[k] == base[k]
    ensures r["scheduleStartDate"] == startDate && r["scheduleEndDate"] == endDate
    ensures r["scheduleStartTime"] == startTime && r["scheduleEndTime"] == endTime
    ensures r["status"] == Str("online")
  {
    AddOfficerForm.ScheduleKeysDistinct();
    base + map["scheduleStartDate" := startDate, "scheduleEndDate" := endDate,
               "scheduleStartTime" := startTime, "scheduleEndTime" := endTime, "status" := Str("online")]
  }

  /** `officerData`: every form field, the schedule dates through
      `dateInputToISO` (given as toIso), the times in 12-hour form, and the
      status set to online. */
  function Payload(d: map<string, string>, toIso: string -> Value): (r: Record)
    requires AddOfficerForm.Fields <= d.Keys
    ensures r.Keys == d.Keys + {"status"}
  {
    AddOfficerForm.ScheduleFieldsPresent(d.Keys);
    WithSchedule(AsRecord(d), toIso(d["scheduleStartDate"]), toIso(d["scheduleEndDate"]),
                 Str(FormatTime(d["scheduleStartTime"])), Str(FormatTime(d["scheduleEndTime"])))
  }

  /** The status is online and the dates go through toIso. */
  lemma PayloadDates(d: map<string, string>, toIso: string -> Value)
    requires AddOfficerForm.Fields <= d.Keys
    ensures Get(Payload(d, toIso), "status") == Some(Str("online"))
    ensures Get(Payload(d, toIso), "scheduleStartDate") == Some(toIso(d["scheduleStartDate"]))
    ensures Get(Payload(d, toIso), "scheduleEndDate") == Some(toIso(d["scheduleEndDate"]))
  {
    AddOfficerForm.ScheduleFieldsPresent(d.Keys);
  }

  /** Both times are stored in 12-hour form. */
  lemma PayloadTimes(d: map<string, string>, toIso: string -> Value)
    requires AddOfficerForm.Fields <= d.Keys
    ensures Get(Payload(d, toIso), "scheduleStartTime") == Some(Str(FormatTime(d["scheduleStartTime"])))
    ensures Get(Payload(d, toIso), "scheduleEndTime") == Some(Str(FormatTime(d["scheduleEndTime"])))
  {
    AddOfficerForm.ScheduleFieldsPresent(d.Keys);
  }

  /** Every other form field is passed on as typed. */
  lemma PayloadKeepsFields(d: map<string, string>, toIso: string -> Value)
    requires AddOfficerForm.Fields <= d.Keys
    ensures forall k :: k in d && k !in RewrittenFields ==> Payload(d, toIso)[k] == Str(d[k])
  {
  }

  /** A time entered as hh:mm is stored so that the edit form shows it again
      unchanged. */
  lemma StoredTimeReadsBack(d: map<string, string>, toIso: string -> Value, field: string, hh: string, mm: string)
    requires AddOfficerForm.Fields <= d.Keys && field in {"scheduleStartTime", "scheduleEndTime"}
    requires d[field] == hh + ":" + mm && TwoDigits(hh) && TwoDigits(mm) && DigitsValue(hh) < 24
    ensures EditOfficerForm.ParseTime(Get(Payload(d, toIso), field)) == Ok(d[field])
  {
    PayloadTimes(d, toIso);
    ParseAfterFormat(hh, mm);
    FormatTimeShape(hh, mm);
  }

  /** The error the form reads after its awaited submit is the one `Settle`
      leaves on the modal. */
  lemma FormShowsModalError(failure: Option<string>)
    ensures failure.None? ==> AddOfficerForm.SaveError(failure) == ""
    ensures failure.Some? ==> AddOfficerForm.SaveError(failure) == ErrorText(failure.value, AddFailed)
  {
  }

  /** The modal's own state. */
  class Modal {
    var isSaving: bool
    var error: string

    constructor ()
      ensures !isSaving && error == ""
    {
      isSaving := false;
      error := "";
    }

    /** `handleSave`: the payload goes to `onSave`; the modal closes when the
        save resolves, shows its message or 'Failed to add officer' when it
        rejects (`failure`), and is no longer saving either way. */
    method HandleSave(d: map<string, string>, toIso: string -> Value, failure: Option<string>)
      returns (sent: Record, closed: bool)
      requires AddOfficerForm.Fields <= d.Keys
      modifies this
      ensures sent == Payload(d, toIso) && !isSaving
      ensures closed <==> failure.None?
      ensures failure.None? ==> error == ""
      ensures failure.Some? ==> error == ErrorText(failure.value, AddFailed) && error != ""
    {
      sent := Payload(d, toIso);
      closed := Settle(failure);
    }

    /** The outcome of the save on the modal's state. */
    method Settle(failure: Option<string>) returns (closed: bool)
      modifies this
      ensures !isSaving
      ensures closed <==> failure.None?
      ensures failure.None? ==> error == ""
      ensures failure.Some? ==> error == ErrorText(failure.value, AddFailed) && error != ""
    {
      isSaving := true;
      error := "";
      if failure.Some? {
        error := ErrorText(failure.value, AddFailed);
        closed := false;
      } else {
        closed := true;
      }
      isSaving := false;
    }
  }
}
