/** The form a participant fills in to join a live session
    (src/components/JoinSessionForm.tsx): the length rules of its schema,
    the upper-casing of the invite code, and the error it shows around the
    join call. The join call itself is a parameter: its outcome is handed
    to `FinishSubmit`. */
module JoinSessionForm {
  import opened Wrappers
  import opened Text

  const MIN_INVITE_CODE: nat := 4
  const MAX_INVITE_CODE: nat := 10
  const MIN_USERNAME: nat := 2
  const MAX_USERNAME: nat := 30

  const INVITE_CODE_TOO_SHORT: string := "Invite code must be at least 4 characters"
  const INVITE_CODE_TOO_LONG: string := "Invite code too long"
  const USERNAME_TOO_SHORT: string := "Username must be at least 2 characters"
  const USERNAME_TOO_LONG: string := "Username too long"
  const JOIN_FAILED: string := "Failed to join. Please check the code and try again."

  /** The schema's messages for one string field: too short, too long, or
      none. */
  function LengthIssues(value: string, min: nat, max: nat, tooShort: string, tooLong: string): (r: seq<string>)
    requires min <= max
    ensures r == [] <==> min <= |value| <= max
    ensures |r| <= 1
  {
    if |value| < min then [tooShort]
    else if |value| > max then [tooLong]
    else []
  }

  /** `formSchema`: the messages for both fields, the invite code's first. */
  function SchemaIssues(inviteCode: string, username: string): (r: seq<string>)
    ensures r == [] <==> MIN_INVITE_CODE <= |inviteCode| <= MAX_INVITE_CODE && MIN_USERNAME <= |username| <= MAX_USERNAME
    ensures |inviteCode| < MIN_INVITE_CODE ==> |r| > 0 && r[0] == INVITE_CODE_TOO_SHORT
    ensures |inviteCode| > MAX_INVITE_CODE ==> |r| > 0 && r[0] == INVITE_CODE_TOO_LONG
  {
    LengthIssues(inviteCode, MIN_INVITE_CODE, MAX_INVITE_CODE, INVITE_CODE_TOO_SHORT, INVITE_CODE_TOO_LONG) +
    LengthIssues(username, MIN_USERNAME, MAX_USERNAME, USERNAME_TOO_SHORT, USERNAME_TOO_LONG)
  }

  predicate SchemaValid(inviteCode: string, username: string) {
    SchemaIssues(inviteCode, username) == []
  }

  /** Upper-casing the invite code, as every edit and the submit do, never
      changes whether the form is valid, and doing it again changes
      nothing. */
  lemma UppercasingKeepsValidity(inviteCode: string, username: string)
    ensures SchemaValid(ToUpper(inviteCode), username) <==> SchemaValid(inviteCode, username)
    ensures ToUpper(ToUpper(inviteCode)) == ToUpper(inviteCode)
  {
    UpperIdempotent(inviteCode);
  }

  /** How the awaited `onJoin` ended; `JoinFailed("")` is an error without a
      message. */
  datatype JoinOutcome = Joined | JoinFailed(message: string)

  class JoinFormState {
    var inviteCode: string
    var username: string
    var error: Option<string>

    /** The error starts as `initialError` when that is a non-empty string,
        the invite code as `initialInviteCode` or empty. */
    constructor (initialError: Option<string>, initialInviteCode: Option<string>)
      ensures error == (if Truthy(initialError) then initialError else None)
      ensures inviteCode == OrElse(initialInviteCode, "") && username == ""
    {
      error := if Truthy(initialError) then initialError else None;
      inviteCode := OrElse(initialInviteCode, "");
      username := "";
    }

    /** Typing in the invite code field stores the text upper-cased. */
    method EditInviteCode(text: string)
      modifies this
      ensures inviteCode == ToUpper(text)
      ensures username == old(username) && error == old(error)
    {
      inviteCode := ToUpper(text);
    }

    method EditUsername(text: string)
      modifies this
      ensures username == text
      ensures inviteCode == old(inviteCode) && error == old(error)
    {
      username := text;
    }

    /** Submitting: an invalid form shows the schema's messages and does
        not reach `handleSubmit`; a valid one clears the error and calls
        `onJoin` with the upper-cased code and the username. */
    method BeginSubmit() returns (issues: seq<string>, join: Option<(string, string)>)
      modifies this
      ensures issues == SchemaIssues(inviteCode, username)
      ensures issues != [] ==> join == None && error == old(error)
      ensures issues == [] ==> join == Some((ToUpper(inviteCode), username)) && error == None
      ensures inviteCode == old(inviteCode) && username == old(username)
    {
      issues := SchemaIssues(inviteCode, username);
      if issues != [] {
        return issues, None;
      }
      error := None;
      join := Some((ToUpper(inviteCode), username));
    }

    /** After `onJoin`: a failure shows its message, or the default text
        when it has none; success leaves the error cleared. */
    method FinishSubmit(outcome: JoinOutcome)
      modifies this
      ensures outcome.Joined? ==> error == old(error)
      ensures outcome.JoinFailed? ==> error == Some(OrElse(Some(outcome.message), JOIN_FAILED))
      ensures outcome.JoinFailed? ==> error.Some? && error.value != ""
      ensures inviteCode == old(inviteCode) && username == old(username)
    {
      if outcome.JoinFailed? {
        error := Some(OrElse(Some(outcome.message), JOIN_FAILED));
      }
    }
  }
}
