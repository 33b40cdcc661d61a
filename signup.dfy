/** The signup form (app/signup/page.tsx): password checks in a fixed order,
    then the account request and its error or success message. */
module Signup {

  import opened Wrappers

  const MismatchError := "Passwords do not match"
  const LengthError := "Password must be at least 6 characters long"
  const SuccessMessage := "Account created successfully! Signing you in..."
  const RequestFailed := "Failed to create account"
  const GenericError := "An error occurred. Please try again."
  const MinPasswordLength := 6

  /** JavaScript's `length`: UTF-16 code units, two for a character beyond
      the basic multilingual plane. */
  function Utf16Length(s: string): (n: nat)
    ensures |s| <= n <= 2 * |s|
  {
    if s == [] then 0
    else (if s[0] as int > 0xFFFF then 2 else 1) + Utf16Length(s[1..])
  }

  /** The checks before any request, mismatch first: the message to show, or
      None when both pass. */
  function ValidatePasswords(password: string, confirmPassword: string): (err: Option<string>)
    ensures err == Some(MismatchError) <==> password != confirmPassword
    ensures err == Some(LengthError) <==> password == confirmPassword && Utf16Length(password) < MinPasswordLength
    ensures err.None? <==> password == confirmPassword && Utf16Length(password) >= MinPasswordLength
  {
    if password != confirmPassword then Some(MismatchError)
    else if Utf16Length(password) < MinPasswordLength then Some(LengthError)
    else None
  }

  /** Six characters always pass the length check, and a password with
      fewer than three characters never does, however it is encoded. */
  lemma LengthCheckBounds(password: string)
    ensures |password| >= MinPasswordLength ==> ValidatePasswords(password, password).None?
    ensures |password| < 3 ==> ValidatePasswords(password, password) == Some(LengthError)
  {
  }

  /** A short password typed differently twice is reported as a mismatch. */
  lemma MismatchReportedFirst(password: string, confirmPassword: string)
    requires password != confirmPassword && Utf16Length(password) < MinPasswordLength
    ensures ValidatePasswords(password, confirmPassword) == Some(MismatchError)
  {
  }

  /** Four characters beyond the basic plane count as eight code units and
      pass the length check. */
  lemma AstralCharactersCountTwice()
    ensures Utf16Length("\U{1F600}\U{1F600}\U{1F600}\U{1F600}") == 8
    ensures ValidatePasswords("\U{1F600}\U{1F600}\U{1F600}\U{1F600}", "\U{1F600}\U{1F600}\U{1F600}\U{1F600}").None?
  {
    var s := "\U{1F600}\U{1F600}\U{1F600}\U{1F600}";
    assert s[1..][1..][1..][1..] == [];
  }

  /** What the request ends in: a thrown error with its message (network
      failure, a body that is not JSON), or a response with its `ok` flag
      and the `error` property of its body. */
  datatype SignupResult = Threw(message: string) | Responded(ok: bool, error: Option<string>)

  /** The message the catch shows for a result that is not a success. */
  function FailureMessage(result: SignupResult): (msg: string)
    requires !(result.Responded? && result.ok)
    ensures msg != ""
    ensures result.Threw? && result.message != "" ==> msg == result.message
    ensures result.Responded? && result.error.Some? && result.error.value != "" ==> msg == result.error.value
    ensures result.Responded? && (result.error.None? || result.error.value == "") ==> msg == RequestFailed
    ensures result.Threw? && result.message == "" ==> msg == GenericError
  {
    var thrown :=
      if result.Threw? then result.message
      else if result.error.Some? && result.error.value != "" then result.error.value
      else RequestFailed;
    if thrown != "" then thrown else GenericError
  }

  /** `disabled={isLoading || !!success}`. */
  predicate SubmitDisabled(isLoading: bool, success: string) {
    isLoading || success != ""
  }

  class SignupForm {
    var name: string
    var email: string
    var password: string
    var confirmPassword: string
    var error: string
    var success: string
    var isLoading: bool
    /** Signup requests sent. */
    var requests: nat

    constructor ()
      ensures name == "" && email == "" && password == "" && confirmPassword == ""
      ensures error == "" && success == "" && !isLoading && requests == 0
    {
      name, email, password, confirmPassword := "", "", "", "";
      error, success := "", "";
      isLoading := false;
      requests := 0;
    }

    /** handleSubmit up to the request: both messages cleared, then the
      checks; only when both pass does loading start and the request go
      out. */
    method BeginSubmit() returns (proceed: bool)
      modifies this
      ensures proceed <==> ValidatePasswords(password, confirmPassword).None?
      ensures error == if proceed then "" else ValidatePasswords(password, confirmPassword).value
      ensures success == ""
      ensures isLoading == (proceed || old(isLoading))
      ensures requests == old(requests) + (if proceed then 1 else 0)
      ensures name == old(name) && email == old(email)
      ensures password == old(password) && confirmPassword == old(confirmPassword)
    {
      error := "";
      success := "";
      if password != confirmPassword {
        error := MismatchError;
        return false;
      }
      if Utf16Length(password) < MinPasswordLength {
        error := LengthError;
        return false;
      }
      isLoading := true;
      requests := requests + 1;
      proceed := true;
    }

    /** handleSubmit after the request: the success message on an ok
      response, the failure message otherwise, and loading over either way. */
    method FinishSubmit(result: SignupResult)
      modifies this
      ensures result.Responded? && result.ok ==> success == SuccessMessage && error == old(error)
      ensures !(result.Responded? && result.ok) ==> error == FailureMessage(result) && success == old(success)
      ensures !isLoading
      ensures requests == old(requests) && name == old(name) && email == old(email)
      ensures password == old(password) && confirmPassword == old(confirmPassword)
    {
      if result.Responded? && result.ok {
        success := SuccessMessage;
      } else {
        error := FailureMessage(result);
      }
      isLoading := false;
    }

    /** A whole submit, from an enabled button. Afterwards nothing is
      loading; exactly one of the two messages is shown; a request went out
      only if the checks passed, and then the button stays disabled exactly
      when it succeeded. */
    method HandleSubmit(result: SignupResult)
      requires !SubmitDisabled(isLoading, success)
      modifies this
      ensures !isLoading
      ensures (error == "") != (success == "")
      ensures ValidatePasswords(password, confirmPassword).Some? ==>
        error == ValidatePasswords(password, confirmPassword).value && requests == old(requests)
      ensures ValidatePasswords(password, confirmPassword).None? ==>
        requests == old(requests) + 1 &&
        (success == SuccessMessage <==> result.Responded? && result.ok) &&
        (SubmitDisabled(isLoading, success) <==> result.Responded? && result.ok)
      ensures password == old(password) && confirmPassword == old(confirmPassword)
    {
      var proceed := BeginSubmit();
      if proceed {
        FinishSubmit(result);
      }
    }
  }
}
