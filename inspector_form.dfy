/** The add-inspector form: the password rules and their error messages, the
    0–6 strength score shown while typing, and the submit chain. */
module InspectorForm {
  import opened Js
  import opened Strings
  import opened Checks
  import Email

  // ---- the password rules ----

  predicate IsUpperAscii(c: char) { 'A' <= c <= 'Z' }
  predicate IsLowerAscii(c: char) { 'a' <= c <= 'z' }

  /** A character of the class `[!@#$%^&*(),.?":{}|<>]`. */
  predicate IsSpecial(c: char)
  {
    c in "!@#$%^&*(),.?\":{}|<>"
  }

  predicate HasUpper(p: string) { exists i :: 0 <= i < |p| && IsUpperAscii(p[i]) }
  predicate HasLower(p: string) { exists i :: 0 <= i < |p| && IsLowerAscii(p[i]) }
  predicate HasDigit(p: string) { exists i :: 0 <= i < |p| && IsDigit(p[i]) }
  predicate HasSpecial(p: string) { exists i :: 0 <= i < |p| && IsSpecial(p[i]) }

  const TooShort: string := "Password must be at least 8 characters"
  const NoUpper: string := "Password must contain at least one uppercase letter"
  const NoLower: string := "Password must contain at least one lowercase letter"
  const NoDigit: string := "Password must contain at least one number"
  const NoSpecial: string := "Password must contain at least one special character"

  /** The password policy: eight characters, with an uppercase letter, a
      lowercase letter, a digit and a special character. */
  predicate Acceptable(p: string)
  {
    |p| >= 8 && HasUpper(p) && HasLower(p) && HasDigit(p) && HasSpecial(p)
  }

  /** The rules one by one, in the order they are tried. */
  function PasswordRules(p: string): (rules: seq<Check>)
    ensures HasMessages(rules)
  {
    [Check(|p| >= 8, TooShort), Check(HasUpper(p), NoUpper), Check(HasLower(p), NoLower),
     Check(HasDigit(p), NoDigit), Check(HasSpecial(p), NoSpecial)]
  }

  /** `validatePassword`: '' for an acceptable password, otherwise the message
      of a broken rule. */
  function ValidatePassword(p: string): (e: string)
    ensures e == "" <==> Acceptable(p)
  {
    if |p| < 8 then TooShort
    else if !HasUpper(p) then NoUpper
    else if !HasLower(p) then NoLower
    else if !HasDigit(p) then NoDigit
    else if !HasSpecial(p) then NoSpecial
    else ""
  }

  /** The message reported is the one of the first rule broken. */
  lemma ValidatePasswordFirstRule(p: string)
    ensures ValidatePassword(p) == FirstFailure(PasswordRules(p))
  {
    var rules := PasswordRules(p);
    if |p| < 8 {
      FirstFailureAt(rules, 0);
    } else if !HasUpper(p) {
      FirstFailureAt(rules, 1);
    } else if !HasLower(p) {
      FirstFailureAt(rules, 2);
    } else if !HasDigit(p) {
      FirstFailureAt(rules, 3);
    } else if !HasSpecial(p) {
      FirstFailureAt(rules, 4);
    } else {
      FirstFailureEmptyIff(rules);
    }
  }

  // ---- the strength meter ----

  function Point(b: bool): nat { if b then 1 else 0 }

  /** The number of the six strength criteria a password meets. */
  function Score(p: string): (s: nat)
    ensures s <= 6
  {
    Point(|p| >= 8) + Point(|p| >= 12) + Point(HasUpper(p)) + Point(HasLower(p)) +
    Point(HasDigit(p)) + Point(HasSpecial(p))
  }

  /** The label of a score: at most 2 is weak, 3 or 4 medium, 5 or 6 strong. */
  function Label(score: nat): (l: string)
    ensures l == "weak" <==> score <= 2
    ensures l == "medium" <==> 3 <= score <= 4
    ensures l == "strong" <==> score >= 5
  {
    if score <= 2 then "weak" else if score <= 4 then "medium" else "strong"
  }

  /** `calculatePasswordStrength`, counting the criteria one at a time. */
  method CalculatePasswordStrength(p: string) returns (rating: string)
    ensures rating == Label(Score(p))
  {
    var strength := 0;
    if |p| >= 8 { strength := strength + 1; }
    if |p| >= 12 { strength := strength + 1; }
    if HasUpper(p) { strength := strength + 1; }
    if HasLower(p) { strength := strength + 1; }
    if HasDigit(p) { strength := strength + 1; }
    if HasSpecial(p) { strength := strength + 1; }
    if strength <= 2 {
      rating := "weak";
    } else if strength <= 4 {
      rating := "medium";
    } else {
      rating := "strong";
    }
  }

  /** Every password the policy accepts meets at least five criteria, so the
      meter calls it strong; a short one meets at most four. */
  lemma AcceptedIsStrong(p: string)
    ensures Acceptable(p) ==> Score(p) >= 5 && Label(Score(p)) == "strong"
    ensures |p| < 8 ==> Score(p) <= 4 && Label(Score(p)) != "strong"
  {
  }

  /** The order of the labels. */
  function Rank(l: string): nat
  {
    if l == "weak" then 0 else if l == "medium" then 1 else 2
  }

  lemma {:induction false} KeepsWitness(p: string, q: string, i: int)
    requires 0 <= i < |p|
    ensures 0 <= i < |p + q| && (p + q)[i] == p[i]
  {
  }

  /** Typing more characters never weakens a password: every criterion met by
      p is met by any extension of it. */
  lemma AppendNeverWeakens(p: string, q: string)
    ensures Score(p) <= Score(p + q)
    ensures Rank(Label(Score(p))) <= Rank(Label(Score(p + q)))
  {
    CriteriaKept(p, q);
    LabelMonotone(Score(p), Score(p + q));
  }

  /** A higher score never gets a lower label. */
  lemma LabelMonotone(a: nat, b: nat)
    requires a <= b
    ensures Rank(Label(a)) <= Rank(Label(b))
  {
  }

  lemma CriteriaKept(p: string, q: string)
    ensures HasUpper(p) ==> HasUpper(p + q)
    ensures HasLower(p) ==> HasLower(p + q)
    ensures HasDigit(p) ==> HasDigit(p + q)
    ensures HasSpecial(p) ==> HasSpecial(p + q)
  {
    if HasUpper(p) {
      var i :| 0 <= i < |p| && IsUpperAscii(p[i]);
      KeepsWitness(p, q, i);
    }
    if HasLower(p) {
      var i :| 0 <= i < |p| && IsLowerAscii(p[i]);
      KeepsWitness(p, q, i);
    }
    if HasDigit(p) {
      var i :| 0 <= i < |p| && IsDigit(p[i]);
      KeepsWitness(p, q, i);
    }
    if HasSpecial(p) {
      var i :| 0 <= i < |p| && IsSpecial(p[i]);
      KeepsWitness(p, q, i);
    }
  }

  // ---- the form ----

  const Fields: set<string> := {"name", "email", "mobileNumber", "password", "confirmPassword"}

  /** `initialFormData`: every field empty. */
  const InitialFormData: map<string, string> :=
    map["name" := "", "email" := "", "mobileNumber" := "", "password" := "", "confirmPassword" := ""]

  /** The submit chain, in order: name, email present, email well formed,
      mobile number, password present, the password rules, confirmation. */
  function SubmitChecks(d: map<string, string>): (checks: seq<Check>)
    requires Fields <= d.Keys
    ensures HasMessages(checks)
  {
    [Check(Trim(d["name"]) != "", "Name is required"),
     Check(Trim(d["email"]) != "", "Email is required"),
     Check(Email.Scan(d["email"]), "Please enter a valid email address"),
     Check(Trim(d["mobileNumber"]) != "", "Mobile number is required"),
     Check(d["password"] != "", "Password is required"),
     Check(ValidatePassword(d["password"]) == "", ValidatePassword(d["password"])),
     Check(d["password"] == d["confirmPassword"], "Passwords do not match")]
  }

  /** A well-formed address is not blank. */
  lemma MatchesNotBlank(e: string)
    requires Email.Matches(e)
    ensures !IsBlank(e)
  {
    var i, k :| 0 < i && i + 1 < k < |e| - 1 && e[i] == '@' && e[k] == '.' &&
      Email.AllPlain(e[..i]) && Email.AllPlain(e[i + 1..k]) && Email.AllPlain(e[k + 1..]);
    assert e[..i][0] == e[0];
  }

  /** The chain passes exactly when each of its seven checks does. */
  lemma SubmitChecksPass(d: map<string, string>)
    requires Fields <= d.Keys
    ensures FirstFailure(SubmitChecks(d)) == "" <==>
      && Trim(d["name"]) != "" && Trim(d["email"]) != "" && Email.Scan(d["email"])
      && Trim(d["mobileNumber"]) != "" && d["password"] != ""
      && ValidatePassword(d["password"]) == "" && d["password"] == d["confirmPassword"]
  {
    var pw := ValidatePassword(d["password"]);
    SevenPass(Trim(d["name"]) != "", Trim(d["email"]) != "", Email.Scan(d["email"]),
              Trim(d["mobileNumber"]) != "", d["password"] != "", pw == "", d["password"] == d["confirmPassword"],
              "Name is required", "Email is required", "Please enter a valid email address",
              "Mobile number is required", "Password is required", pw, "Passwords do not match");
  }

  /** A chain of seven checks with messages passes exactly when all seven
      pass. */
  lemma SevenPass(b0: bool, b1: bool, b2: bool, b3: bool, b4: bool, b5: bool, b6: bool,
                  m0: string, m1: string, m2: string, m3: string, m4: string, m5: string, m6: string)
    requires m0 != "" && m1 != "" && m2 != "" && m3 != "" && m4 != "" && (!b5 ==> m5 != "") && m6 != ""
    ensures FirstFailure([Check(b0, m0), Check(b1, m1), Check(b2, m2), Check(b3, m3),
                          Check(b4, m4), Check(b5, m5), Check(b6, m6)]) == "" <==>
      b0 && b1 && b2 && b3 && b4 && b5 && b6
  {
    var checks := [Check(b0, m0), Check(b1, m1), Check(b2, m2), Check(b3, m3),
                   Check(b4, m4), Check(b5, m5), Check(b6, m6)];
    FirstFailureEmptyIff(checks);
    AllPassSeven(checks);
  }

  lemma AllPassSeven(checks: seq<Check>)
    requires |checks| == 7
    ensures (forall i :: 0 <= i < |checks| ==> checks[i].passes) <==>
      && checks[0].passes && checks[1].passes && checks[2].passes && checks[3].passes
      && checks[4].passes && checks[5].passes && checks[6].passes
  {
    if checks[0].passes && checks[1].passes && checks[2].passes && checks[3].passes &&
       checks[4].passes && checks[5].passes && checks[6].passes {
      forall i | 0 <= i < |checks|
        ensures checks[i].passes
      {
        assert i == 0 || i == 1 || i == 2 || i == 3 || i == 4 || i == 5 || i == 6;
      }
    }
  }

  /** The form submits exactly when name and mobile number are not blank,
      the email has the `local@host.tld` shape, the password meets the
      policy and the confirmation repeats it; so every password that gets
      through is rated strong. */
  lemma SubmitAccepts(d: map<string, string>)
    requires Fields <= d.Keys
    ensures FirstFailure(SubmitChecks(d)) == "" <==>
      && !IsBlank(d["name"]) && !IsBlank(d["mobileNumber"]) && Email.Matches(d["email"])
      && Acceptable(d["password"]) && d["password"] == d["confirmPassword"]
    ensures FirstFailure(SubmitChecks(d)) == "" ==> Label(Score(d["password"])) == "strong"
  {
    SubmitChecksPass(d);
    TrimEmptyIffBlank(d["name"]);
    TrimEmptyIffBlank(d["email"]);
    TrimEmptyIffBlank(d["mobileNumber"]);
    Email.ScanIffMatches(d["email"]);
    if Email.Matches(d["email"]) {
      MatchesNotBlank(d["email"]);
    }
    AcceptedIsStrong(d["password"]);
  }

  /** The error the enclosing modal shows once its `handleSave` has run on
      the submitted fields: cleared when the save succeeds, otherwise the
      thrown message or, when that is empty, 'Failed to add inspector'.
      `failure` is the message `onSave` throws, if it throws. */
  function SaveError(failure: Option<string>): (e: string)
    ensures failure.None? <==> e == ""
    ensures failure.Some? && failure.value != "" ==> e == failure.value
  {
    match failure
    case None => ""
    case Some(message) => if message != "" then message else "Failed to add inspector"
  }

  /** The form's state: its fields, the strength label under the password
      field, and the error shown above the form; the error belongs to the
      enclosing modal, which passes it down with its setter. */
  class Form {
    var data: map<string, string>
    var strength: string
    var error: string

    predicate Valid()
      reads this
    {
      data.Keys == Fields
    }

    constructor ()
      ensures Valid() && data == InitialFormData && strength == "" && error == ""
    {
      data := InitialFormData;
      strength := "";
      error := "";
    }

    /** `handleChange`: one field takes the typed value, the strength is
        recomputed when that field is the password, and the error clears. */
    method HandleChange(name: string, value: string)
      requires Valid() && name in Fields
      modifies this
      ensures Valid()
      ensures data == old(data)[name := value] && error == ""
      ensures strength == if name == "password" then Label(Score(value)) else old(strength)
    {
      data := data[name := value];
      if name == "password" {
        strength := CalculatePasswordStrength(value);
      }
      error := "";
    }

    /** `handleSubmit`: either the first failing check's message is shown and
        nothing is saved, or the fields are handed to `onSave` and the form
        is reset. The enclosing modal's `handleSave` catches every error of
        the save, so the reset always follows. */
    method HandleSubmit(saveFailure: Option<string>) returns (saved: Option<map<string, string>>)
      requires Valid()
      modifies this
      ensures Valid()
      ensures var m := FirstFailure(SubmitChecks(old(data)));
        && (m != "" ==> saved == None && error == m && data == old(data) && strength == old(strength))
        && (m == "" ==> saved == Some(old(data)) && data == InitialFormData && strength == "" && error == SaveError(saveFailure))
    {
      var m := FirstFailure(SubmitChecks(data));
      if m != "" {
        ShowError(m);
        return None;
      }
      saved := Some(data);
      error := SaveError(saveFailure);
      Reset();
    }

    /** `setError`: the message is shown and the fields stay as typed. */
    method ShowError(m: string)
      modifies this
      ensures data == old(data) && strength == old(strength) && error == m
    {
      error := m;
    }

    /** `setFormData(initialFormData)` and `setPasswordStrength('')`. */
    method Reset()
      modifies this
      ensures data == InitialFormData && strength == "" && error == old(error)
    {
      data := InitialFormData;
      strength := "";
    }
  }
}
