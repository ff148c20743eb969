/** The "first failure wins" validation chains of the portal's forms: a list of
    checks run in order, where the first check that fails decides the error
    message and stops the chain. */
module Checks {
  import opened Js

  datatype Check = Check(passes: bool, message: string)

  /** The message of the first failing check, or '' when every check passes. */
  function FirstFailure(checks: seq<Check>): string
    decreases |checks|
  {
    if checks == [] then ""
    else if !checks[0].passes then checks[0].message
    else FirstFailure(checks[1..])
  }

  /** Every check that fails says why. */
  predicate HasMessages(checks: seq<Check>)
  {
    forall i :: 0 <= i < |checks| && !checks[i].passes ==> checks[i].message != ""
  }

  /** With non-empty messages, the chain reports nothing exactly when every
      check passes. */
  lemma {:induction false} FirstFailureEmptyIff(checks: seq<Check>)
    requires HasMessages(checks)
    ensures FirstFailure(checks) == "" <==> forall i :: 0 <= i < |checks| ==> checks[i].passes
    decreases |checks|
  {
    if checks != [] {
      FirstFailureEmptyIff(checks[1..]);
      if checks[0].passes && FirstFailure(checks) != "" {
        var i :| 0 <= i < |checks[1..]| && !checks[1..][i].passes;
        assert !checks[i + 1].passes;
      }
    }
  }

  /** When checks 0..k-1 pass and check k fails, the chain reports check k's
      message, whatever the later checks say. */
  lemma {:induction false} FirstFailureAt(checks: seq<Check>, k: nat)
    requires k < |checks| && !checks[k].passes
    requires forall i :: 0 <= i < k ==> checks[i].passes
    ensures FirstFailure(checks) == checks[k].message
    decreases k
  {
    if k > 0 {
      FirstFailureAt(checks[1..], k - 1);
    }
  }

  /** A chain whose checks may themselves throw, as `.trim()` does on a value
      that is not a string: the first check that throws or fails decides, and
      the later ones are not evaluated. */
  function FirstFailureOrThrow(checks: seq<Result<Check>>): Result<string>
    decreases |checks|
  {
    if checks == [] then Ok("")
    else match checks[0]
      case Err(m) => Err(m)
      case Ok(c) => if !c.passes then Ok(c.message) else FirstFailureOrThrow(checks[1..])
  }

  /** Without a throwing check, the chain is the plain one. */
  lemma {:induction false} FirstFailureOrThrowNoThrow(checks: seq<Result<Check>>, plain: seq<Check>)
    requires |plain| == |checks| && forall i :: 0 <= i < |checks| ==> checks[i] == Ok(plain[i])
    ensures FirstFailureOrThrow(checks) == Ok(FirstFailure(plain))
    decreases |checks|
  {
    if checks != [] {
      FirstFailureOrThrowNoThrow(checks[1..], plain[1..]);
    }
  }

  /** A check that throws after checks that pass makes the whole chain throw. */
  lemma {:induction false} FirstFailureOrThrowThrows(checks: seq<Result<Check>>, k: nat)
    requires k < |checks| && checks[k].Err?
    requires forall i :: 0 <= i < k ==> checks[i].Ok? && checks[i].value.passes
    ensures FirstFailureOrThrow(checks) == Err(checks[k].message)
    decreases k
  {
    if k > 0 {
      FirstFailureOrThrowThrows(checks[1..], k - 1);
    }
  }

  /** With non-empty messages, a chain that may throw reports nothing
      exactly when every check runs and passes. */
  lemma {:induction false} FirstFailureOrThrowEmptyIff(checks: seq<Result<Check>>)
    requires forall i :: 0 <= i < |checks| && checks[i].Ok? && !checks[i].value.passes ==> checks[i].value.message != ""
    ensures FirstFailureOrThrow(checks) == Ok("") <==>
      forall i :: 0 <= i < |checks| ==> checks[i].Ok? && checks[i].value.passes
    decreases |checks|
  {
    if checks != [] {
      FirstFailureOrThrowEmptyIff(checks[1..]);
      assert forall i :: 1 <= i < |checks| ==> checks[i] == checks[1..][i - 1];
    }
  }
}
