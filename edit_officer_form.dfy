/** The edit-officer form: reading a stored 12-hour time back into an
    `<input type="time">` value, the initial state built from the officer
    being edited, and the submit chain. */
module EditOfficerForm {
  import opened Js
  import opened Strings
  import opened Checks
  import opened ListHook

  /** The modal's fallback error text. */
  const SaveFailed: string := "Failed to update officer"

  /** The error the enclosing modal shows once its `handleSave`, awaited by
      the submit, has run: `setError('')` first, then, when the save throws
      `failure`, `err.message || 'Failed to update officer'`. The error is
      the modal's state, passed down to the form with its setter. */
  function SaveError(failure: Option<string>): (e: string)
    ensures failure.None? <==> e == ""
    ensures failure.Some? && failure.value != "" ==> e == failure.value
    ensures failure == Some("") ==> e == SaveFailed
  {
    match failure
    case None => ""
    case Some(message) => ErrorText(message, SaveFailed)
  }

  // ---- parseTime ----

  /** The groups of a match of `(\d{1,2}):(\d{2})\s*(AM|PM)` under the `i`
      flag, the marker already upper-cased. */
  datatype TimeParts = TimeParts(hours: string, minutes: string, marker: string)

  /** The index of the first character at or after j that `\s` does not match. */
  function SkipSpaces(s: string, j: nat): (k: nat)
    requires j <= |s|
    ensures j <= k <= |s| && (k < |s| ==> !IsSpace(s[k]))
    ensures forall m :: j <= m < k ==> IsSpace(s[m])
    decreases |s| - j
  {
    if j < |s| && IsSpace(s[j]) then SkipSpaces(s, j + 1) else j
  }

  /** `AM` or `PM` at j in either case, upper-cased. */
  function MarkerAt(s: string, j: nat): (m: Option<string>)
    ensures m.Some? ==> m.value == "AM" || m.value == "PM"
  {
    if j + 1 < |s| && s[j] in "aApP" && s[j + 1] in "mM" then
      Some(if s[j] in "aA" then "AM" else "PM")
    else None
  }

  /** A match starting at i whose hour group has d digits. `\s*` is greedy,
      and since neither `A` nor `P` is a space, giving spaces back never
      helps: the marker must follow the whole run of spaces. */
  function MatchWith(s: string, i: nat, d: nat): (p: Option<TimeParts>)
    requires d == 1 || d == 2
    ensures p.Some? ==> |p.value.hours| == d && AllDigits(p.value.hours)
    ensures p.Some? ==> |p.value.minutes| == 2 && AllDigits(p.value.minutes)
    ensures p.Some? ==> p.value.marker == "AM" || p.value.marker == "PM"
  {
    if i + d + 3 <= |s| && AllDigits(s[i..i + d]) && s[i + d] == ':' && AllDigits(s[i + d + 1..i + d + 3]) then
      match MarkerAt(s, SkipSpaces(s, i + d + 3))
      case None => None
      case Some(m) => Some(TimeParts(s[i..i + d], s[i + d + 1..i + d + 3], m))
    else None
  }

  /** What the groups of any match look like. */
  predicate Shaped(p: TimeParts)
  {
    && 1 <= |p.hours| <= 2 && AllDigits(p.hours)
    && |p.minutes| == 2 && AllDigits(p.minutes)
    && (p.marker == "AM" || p.marker == "PM")
  }

  /** A match starting at i: the greedy `\d{1,2}` tries two digits first. */
  function MatchAt(s: string, i: nat): (p: Option<TimeParts>)
    ensures p.Some? ==> Shaped(p.value)
  {
    if MatchWith(s, i, 2).Some? then MatchWith(s, i, 2) else MatchWith(s, i, 1)
  }

  /** `s.match(re)` for the unanchored pattern: the match at the leftmost
      start position from i on. */
  function FirstMatch(s: string, i: nat): (p: Option<TimeParts>)
    ensures p.Some? ==> Shaped(p.value)
    decreases |s| - i
  {
    if i >= |s| then None
    else if MatchAt(s, i).Some? then MatchAt(s, i)
    else FirstMatch(s, i + 1)
  }

  /** The two adjustments of the hour: `PM` adds 12 except to 12, and
      `12 AM` is midnight. */
  function Hour24(h: nat, marker: string): (r: nat)
    ensures marker == "PM" && h != 12 ==> r == h + 12
    ensures marker == "PM" && h == 12 ==> r == 12
    ensures marker == "AM" && h == 12 ==> r == 0
    ensures marker == "AM" && h != 12 ==> r == h
    ensures (marker == "AM" || marker == "PM") && h <= 12 ==> r < 24
  {
    var h1 := if marker == "PM" && h != 12 then h + 12 else h;
    if marker == "AM" && h1 == 12 then 0 else h1
  }

  /** The text of `parseTime` once the value is a non-empty string. */
  function ParseTimeText(s: string): string
  {
    match FirstMatch(s, 0)
    case None => ""
    case Some(p) => PadStart(NatToString(Hour24(DigitsValue(p.hours), p.marker)), 2, '0') + ":" + p.minutes
  }

  /** `parseTime(time12)`: '' for a missing or empty value; `.match` throws
      on a value that is not a string. */
  function ParseTime(v: Option<Value>): (r: Result<string>)
    ensures !Truthy(v) ==> r == Ok("")
    ensures Truthy(v) && !v.value.Str? ==> r == Err(TypeErrorMessage)
    ensures Truthy(v) && v.value.Str? ==> r == Ok(ParseTimeText(v.value.s))
  {
    if !Truthy(v) then Ok("")
    else match AsString(v)
      case None => Err(TypeErrorMessage)
      case Some(s) => Ok(ParseTimeText(s))
  }

  /** A marker in any case. */
  predicate MarkerText(mk: string)
  {
    |mk| == 2 && mk[0] in "aApP" && mk[1] in "mM"
  }

  function MarkerOf(mk: string): string
    requires MarkerText(mk)
  {
    if mk[0] in "aA" then "AM" else "PM"
  }

  /** The markers `formatTime` prints read back as themselves. */
  lemma UpperMarkers()
    ensures MarkerText("AM") && MarkerOf("AM") == "AM"
    ensures MarkerText("PM") && MarkerOf("PM") == "PM"
  {
    assert "AM"[0] == 'A' && "AM"[1] == 'M';
    assert "PM"[0] == 'P' && "PM"[1] == 'M';
  }

  /** A string shaped `HH:MM <spaces><marker>` matches at its start with
      the two-digit hour. */
  lemma MatchesTwelveHourText(hh: string, mm: string, sp: string, mk: string)
    requires |hh| == 2 && AllDigits(hh) && |mm| == 2 && AllDigits(mm)
    requires IsBlank(sp) && MarkerText(mk)
    ensures FirstMatch(hh + ":" + mm + sp + mk, 0) == Some(TimeParts(hh, mm, MarkerOf(mk)))
  {
    var s := hh + ":" + mm + sp + mk;
    assert s[0..2] == hh && s[2] == ':' && s[3..5] == mm;
    assert forall m :: 5 <= m < 5 + |sp| ==> s[m] == sp[m - 5];
    assert s[5 + |sp|] == mk[0] && s[6 + |sp|] == mk[1];
    assert !IsSpace(mk[0]);
    SkipSpacesOver(s, 5, 5 + |sp|);
  }

  lemma {:induction false} SkipSpacesOver(s: string, j: nat, k: nat)
    requires j <= k < |s| && !IsSpace(s[k])
    requires forall m :: j <= m < k ==> IsSpace(s[m])
    ensures SkipSpaces(s, j) == k
    decreases k - j
  {
    if j < k {
      SkipSpacesOver(s, j + 1, k);
    }
  }

  /** What `parseTime` makes of such a string: the hour moved to the 24-hour
      clock and padded to two digits, the minutes copied. The marker's case
      does not matter. */
  lemma ParseTwelveHourText(hh: string, mm: string, sp: string, mk: string)
    requires |hh| == 2 && AllDigits(hh) && |mm| == 2 && AllDigits(mm)
    requires IsBlank(sp) && MarkerText(mk)
    ensures ParseTimeText(hh + ":" + mm + sp + mk) ==
      PadStart(NatToString(Hour24(DigitsValue(hh), MarkerOf(mk))), 2, '0') + ":" + mm
  {
    MatchesTwelveHourText(hh, mm, sp, mk);
  }

  // ---- the form ----

  const TextFields: set<string> := {"name", "email", "mobileNumber", "selectedCouncil"}
  const DateFields: set<string> := {"scheduleStartDate", "scheduleEndDate"}
  const TimeFields: set<string> := {"scheduleStartTime", "scheduleEndTime"}
  const Fields: set<string> := TextFields + DateFields + TimeFields

  /** `officer?.[key]` */
  function Field(officer: Option<Record>, key: string): Option<Value>
  {
    if officer.Some? then Get(officer.value, key) else None
  }

  /** `officer?.[key] || ''` */
  function TextOrEmpty(officer: Option<Record>, key: string): (v: Value)
    ensures Truthy(Field(officer, key)) ==> v == Field(officer, key).value
    ensures !Truthy(Field(officer, key)) ==> v == Str("")
  {
    Or(Field(officer, key), Some(Str(""))).value
  }

  /** `buildInitialState(officer)`. `isoToDateInput` is given as
      `toDateInput`; a time that is present but not a string makes
      `parseTime` throw. */
  function BuildInitialState(officer: Option<Record>, toDateInput: Option<Value> -> string): (r: Result<Record>)
    ensures r.Err? <==> exists t :: t in TimeFields && ParseTime(Field(officer, t)).Err?
    ensures r.Ok? ==> r.value.Keys == Fields
    ensures r.Ok? ==> forall k :: k in TextFields ==> r.value[k] == TextOrEmpty(officer, k)
    ensures r.Ok? ==> forall k :: k in DateFields ==> r.value[k] == Str(toDateInput(Field(officer, k)))
    ensures r.Ok? ==> forall k :: k in TimeFields ==> r.value[k] == Str(ParseTime(Field(officer, k)).value)
  {
    var start := ParseTime(Field(officer, "scheduleStartTime"));
    var end := ParseTime(Field(officer, "scheduleEndTime"));
    if start.Err? then Err(start.message)
    else if end.Err? then Err(end.message)
    else Ok(InitialRecord(officer, toDateInput, start.value, end.value))
  }

  /** The initial state once both times have been read. */
  function InitialRecord(officer: Option<Record>, toDateInput: Option<Value> -> string, start: string, end: string): (r: Record)
    ensures r.Keys == Fields
    ensures forall k :: k in TextFields ==> r[k] == TextOrEmpty(officer, k)
    ensures forall k :: k in DateFields ==> r[k] == Str(toDateInput(Field(officer, k)))
    ensures r["scheduleStartTime"] == Str(start) && r["scheduleEndTime"] == Str(end)
  {
    map["name" := TextOrEmpty(officer, "name"), "email" := TextOrEmpty(officer, "email"),
        "mobileNumber" := TextOrEmpty(officer, "mobileNumber"),
        "selectedCouncil" := TextOrEmpty(officer, "selectedCouncil"),
        "scheduleStartDate" := Str(toDateInput(Field(officer, "scheduleStartDate"))),
        "scheduleEndDate" := Str(toDateInput(Field(officer, "scheduleEndDate"))),
        "scheduleStartTime" := Str(start), "scheduleEndTime" := Str(end)]
  }

  /** Every field the officer lacks starts out as ''. */
  lemma MissingFieldsStartEmpty(officer: Option<Record>, toDateInput: Option<Value> -> string, k: string)
    requires BuildInitialState(officer, toDateInput).Ok?
    requires k in TextFields + TimeFields && Field(officer, k).None?
    ensures BuildInitialState(officer, toDateInput).value[k] == Str("")
  {
  }

  /** `!v.trim()`, where `.trim()` throws on a value that is not a string. */
  function NonBlank(v: Value, message: string): (c: Result<Check>)
    ensures c.Err? <==> !v.Str?
    ensures c.Ok? ==> c.value.message == message && (c.value.passes <==> !IsBlank(v.s))
  {
    TrimEmptyIffBlank(if v.Str? then v.s else "");
    if v.Str? then Ok(Check(Trim(v.s) != "", message)) else Err(TypeErrorMessage)
  }

  /** The submit chain, in order: name, mobile number, email, council; there
      is no password field. */
  function SubmitChecks(d: Record): seq<Result<Check>>
    requires Fields <= d.Keys
  {
    [NonBlank(d["name"], "Name is required"),
     NonBlank(d["mobileNumber"], "Mobile number is required"),
     NonBlank(d["email"], "Email is required"),
     Ok(Check(Truthy(Some(d["selectedCouncil"])), "Please select a municipal council"))]
  }

  /** The chain passes exactly when name, mobile number and email are
      strings that are not blank and a council is chosen. */
  lemma SubmitAccepts(d: Record)
    requires Fields <= d.Keys
    ensures FirstFailureOrThrow(SubmitChecks(d)) == Ok("") <==>
      && d["name"].Str? && !IsBlank(d["name"].s)
      && d["mobileNumber"].Str? && !IsBlank(d["mobileNumber"].s)
      && d["email"].Str? && !IsBlank(d["email"].s)
      && Truthy(Some(d["selectedCouncil"]))
  {
    var checks := SubmitChecks(d);
    FirstFailureOrThrowEmptyIff(checks);
    if forall i :: 0 <= i < 4 ==> checks[i].Ok? && checks[i].value.passes {
      assert checks[0].Ok? && checks[1].Ok? && checks[2].Ok? && checks[3].value.passes;
    }
    if && d["name"].Str? && !IsBlank(d["name"].s)
       && d["mobileNumber"].Str? && !IsBlank(d["mobileNumber"].s)
       && d["email"].Str? && !IsBlank(d["email"].s)
       && Truthy(Some(d["selectedCouncil"])) {
      forall i | 0 <= i < |checks|
        ensures checks[i].Ok? && checks[i].value.passes
      {
        assert i == 0 || i == 1 || i == 2 || i == 3;
      }
    }
  }

  /** A blank name is reported first, whatever the other fields hold. */
  lemma BlankNameFirst(d: Record)
    requires Fields <= d.Keys && d["name"].Str? && IsBlank(d["name"].s)
    ensures FirstFailureOrThrow(SubmitChecks(d)) == Ok("Name is required")
  {
  }

  /** The form's state; the error belongs to the enclosing modal. */
  class Form {
    var data: Record
    var error: string

    predicate Valid()
      reads this
    {
      data.Keys == Fields
    }

    /** The state `useState(() => buildInitialState(officer))` starts from. */
    constructor (initial: Record)
      requires initial.Keys == Fields
      ensures Valid() && data == initial && error == ""
    {
      data := initial;
      error := "";
    }

    /** `handleChange`: exactly the edited field changes, and the error
        clears. */
    method HandleChange(name: string, value: string)
      requires Valid() && name in Fields
      modifies this
      ensures Valid()
      ensures data == old(data)[name := Str(value)] && error == ""
    {
      data := data[name := Str(value)];
      error := "";
    }

    /** `handleSubmit`: a check that throws rejects the submit, a failing
        check shows its message, and otherwise the fields go to `onSave`,
        after which the error is the one the modal's save leaves; the form
        is not reset. */
    method HandleSubmit(saveFailure: Option<string>) returns (r: Result<Option<Record>>)
      requires Valid()
      modifies this
      ensures Valid() && data == old(data)
      ensures var c := FirstFailureOrThrow(SubmitChecks(old(data)));
        && (c.Err? ==> r == Err(c.message) && error == old(error))
        && (c.Ok? && c.value != "" ==> r == Ok(None) && error == c.value)
        && (c == Ok("") ==> r == Ok(Some(old(data))) && error == SaveError(saveFailure))
    {
      var c := FirstFailureOrThrow(SubmitChecks(data));
      if c.Err? {
        return Err(c.message);
      }
      if c.value != "" {
        error := c.value;
        return Ok(None);
      }
      r := Ok(Some(data));
      error := SaveError(saveFailure);
    }
  }
}
