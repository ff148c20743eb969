/** The add-officer form: its submit chain, its reset after saving, and field
    edits. */
module AddOfficerForm {
  import opened Js
  import opened Strings
  import opened Checks
  import Email
  import opened ListHook

  /** The modal's fallback error text. */
  const SaveFailed: string := "Failed to add officer"

  /** The error the enclosing modal shows once its `handleSave`, awaited by
      the submit, has run: `setError('')` first, then, when the save throws
      `failure`, `err.message || 'Failed to add officer'`. The error is the modal's state,
      passed down to the form with its setter. */
  function SaveError(failure: Option<string>): (e: string)
    ensures failure.None? <==> e == ""
    ensures failure.Some? && failure.value != "" ==> e == failure.value
    ensures failure == Some("") ==> e == SaveFailed
  {
    match failure
    case None => ""
    case Some(message) => ErrorText(message, SaveFailed)
  }

  /** The form's inputs. */
  const Fields: set<string> := {"name", "mobileNumber", "email", "password", "selectedCouncil",
                                "scheduleStartDate", "scheduleEndDate", "scheduleStartTime", "scheduleEndTime"}

  /** The date and time fields share their first letters; the names first
      differ at the `D`/`T`. */
  lemma ScheduleKeysDistinct()
    ensures "scheduleStartDate" != "scheduleStartTime" && "scheduleEndDate" != "scheduleEndTime"
  {
    assert "scheduleStartDate"[13] != "scheduleStartTime"[13];
    assert "scheduleEndDate"[11] != "scheduleEndTime"[11];
  }

  /** The four schedule fields are among the form's fields. */
  lemma ScheduleFieldsPresent(keys: set<string>)
    requires Fields <= keys
    ensures "scheduleStartDate" in keys && "scheduleEndDate" in keys
    ensures "scheduleStartTime" in keys && "scheduleEndTime" in keys
  {
  }

  const ShortPassword: string := "Password must be at least 6 characters"

  /** The submit chain, in order: name, mobile number and email not blank, a
      password of six characters or more, a council chosen. */
  function SubmitChecks(d: map<string, string>): (checks: seq<Check>)
    requires Fields <= d.Keys
    ensures HasMessages(checks)
  {
    var checks :=
      [Check(Trim(d["name"]) != "", "Name is required"),
       Check(Trim(d["mobileNumber"]) != "", "Mobile number is required"),
       Check(Trim(d["email"]) != "", "Email is required"),
       Check(!(d["password"] == "" || |d["password"]| < 6), ShortPassword),
       Check(d["selectedCouncil"] != "", "Please select a municipal council")];
    assert HasMessages(checks) by {
      forall i | 0 <= i < |checks|
        ensures checks[i].message != ""
      {
        assert i == 0 || i == 1 || i == 2 || i == 3 || i == 4;
      }
    }
    checks
  }

  /** The chain passes exactly when name, mobile number and email are not
      blank, the password has at least six characters and some council is
      chosen. The email's shape is not checked, and any council text will do. */
  lemma SubmitAccepts(d: map<string, string>)
    requires Fields <= d.Keys
    ensures FirstFailure(SubmitChecks(d)) == "" <==>
      && !IsBlank(d["name"]) && !IsBlank(d["mobileNumber"]) && !IsBlank(d["email"])
      && |d["password"]| >= 6 && d["selectedCouncil"] != ""
  {
    var checks := SubmitChecks(d);
    FirstFailureEmptyIff(checks);
    TrimEmptyIffBlank(d["name"]);
    TrimEmptyIffBlank(d["mobileNumber"]);
    TrimEmptyIffBlank(d["email"]);
    if checks[0].passes && checks[1].passes && checks[2].passes && checks[3].passes && checks[4].passes {
      forall i | 0 <= i < |checks|
        ensures checks[i].passes
      {
        assert i == 0 || i == 1 || i == 2 || i == 3 || i == 4;
      }
    }
  }

  /** With the earlier fields filled in, a six-character password is
      enough and a five-character one is refused with the length message. */
  lemma PasswordBoundary(d: map<string, string>)
    requires Fields <= d.Keys
    requires !IsBlank(d["name"]) && !IsBlank(d["mobileNumber"]) && !IsBlank(d["email"])
    ensures |d["password"]| == 5 ==> FirstFailure(SubmitChecks(d)) == ShortPassword
    ensures |d["password"]| == 6 && d["selectedCouncil"] != "" ==> FirstFailure(SubmitChecks(d)) == ""
  {
    TrimEmptyIffBlank(d["name"]);
    TrimEmptyIffBlank(d["mobileNumber"]);
    TrimEmptyIffBlank(d["email"]);
    if |d["password"]| == 5 {
      FirstFailureAt(SubmitChecks(d), 3);
    }
    SubmitAccepts(d);
  }

  /** An address without a dot after the `@` gets through. */
  lemma AcceptsMalformedEmail(d: map<string, string>)
    requires Fields <= d.Keys && d["email"] == "a@b"
    requires !IsBlank(d["name"]) && !IsBlank(d["mobileNumber"])
    requires |d["password"]| >= 6 && d["selectedCouncil"] != ""
    ensures FirstFailure(SubmitChecks(d)) == "" && !Email.Matches(d["email"])
  {
    assert !IsSpace(d["email"][0]);
    SubmitAccepts(d);
    Email.RejectsWithoutDot();
  }

  /** The form's state; `initial` is the `initialFormData` it was given, and
      the error belongs to the enclosing modal. */
  class Form {
    const initial: map<string, string>
    var data: map<string, string>
    var error: string

    predicate Valid()
      reads this
    {
      initial.Keys == Fields && data.Keys == Fields
    }

    constructor (initial: map<string, string>)
      requires initial.Keys == Fields
      ensures Valid() && this.initial == initial && data == initial && error == ""
    {
      this.initial := initial;
      data := initial;
      error := "";
    }

    /** `handleChange`: exactly the edited field changes, and the error
        clears. */
    method HandleChange(name: string, value: string)
      requires Valid() && name in Fields
      modifies this
      ensures Valid()
      ensures data == old(data)[name := value] && error == ""
      ensures forall k :: k in data && k != name ==> data[k] == old(data)[k]
    {
      data := data[name := value];
      error := "";
    }

    /** `handleSubmit`: the first failing check's message, or the fields
        handed to `onSave` and then the form back at `initialFormData`. The
        enclosing modal's `handleSave` catches every error of the save, so
        the reset always follows, with the error that save leaves. */
    method HandleSubmit(saveFailure: Option<string>) returns (saved: Option<map<string, string>>)
      requires Valid()
      modifies this
      ensures Valid()
      ensures var m := FirstFailure(SubmitChecks(old(data)));
        && (m != "" ==> saved == None && error == m && data == old(data))
        && (m == "" ==> saved == Some(old(data)) && data == initial && error == SaveError(saveFailure))
    {
      var m := FirstFailure(SubmitChecks(data));
      if m != "" {
        error := m;
        return None;
      }
      saved := Some(data);
      error := SaveError(saveFailure);
      data := initial;
    }
  }
}
