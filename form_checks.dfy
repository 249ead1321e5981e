/**
 * What the client's forms share: the required-and-short check on a text
 * field, JavaScript truthiness of an optional text, and a reply that may
 * not arrive.
 */
module FormChecks {
  import opened Wrappers
  import Validation
  import RegisterWithUsername

  const Required := "Required"
  const TooLong := "Must be 32 characters or less"

  /** A field must be filled in and at most 32 characters long. */
  function CheckField(s: string): (e: Option<string>)
    ensures e.None? <==> 1 <= |s| <= 32
    ensures s == "" ==> e == Some(Required)
    ensures |s| > 32 ==> e == Some(TooLong)
  {
    if s == "" then Some(Required) else if |s| > 32 then Some(TooLong) else None
  }

  /** The client accepts exactly the usernames the server accepts. */
  lemma UsernameCheckMatchesServer(username: string, userId: string)
    ensures CheckField(username).None? <==> Validation.ValidRegisterUser(username)
    ensures |userId| >= 5 ==>
      (CheckField(username).None? <==> RegisterWithUsername.ValidRequest(username, userId))
  {
  }

  /** For user ids the client is more lenient than registration: a short id passes here and is refused there. */
  lemma ShortUserIdPassesClientOnly()
    ensures CheckField("abcd").None? && !RegisterWithUsername.ValidRequest("player", "abcd")
  {
  }

  /** JavaScript truthiness of a text that may be missing: absent and "" are false. */
  predicate Truthy(s: Option<string>) {
    s.Some? && s.value != ""
  }

  /** A reply, or the exception thrown while fetching or reading it. */
  datatype Fetched<T> = Thrown | Got(reply: T)
}
