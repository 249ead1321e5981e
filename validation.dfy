/**
 * Request extraction and validation: a JSON body is first parsed, then
 * checked against the ranges declared on its request type; either failure is
 * answered with 400 before any handler runs.
 */
module Validation {
  import opened Wrappers
  import opened Records

  /** `SubmitChallengeRequest`: the guess is a HER2 level, 0 to 3. */
  predicate ValidGuess(guess: int) {
    0 <= guess <= 3
  }

  /** `CreateGameRequest`: a user id of 1 to 32 characters. */
  predicate ValidCreateGame(userId: string) {
    1 <= |userId| <= 32
  }

  /** `RegisterUserRequest`: a username of 1 to 32 characters. */
  predicate ValidRegisterUser(username: string) {
    1 <= |username| <= 32
  }

  /** Why a request was refused. Each carries the library's own rendering of
      the failure (the list of field errors, or the JSON parser's complaint). */
  datatype ServerError = ValidationError(display: string) | JsonRejection(display: string)

  datatype Response = Response(status: int, body: string)

  /** Every newline of `s` replaced by ", ". */
  function ReplaceNewlines(s: string): (r: string)
    ensures '\n' !in r
    ensures '\n' !in s ==> r == s
    ensures |r| >= |s|
  {
    if s == [] then []
    else (if s[0] == '\n' then ", " else [s[0]]) + ReplaceNewlines(s[1..])
  }

  /** Replacing newlines works piece by piece. */
  lemma {:induction false} ReplaceNewlinesAppend(a: string, b: string)
    ensures ReplaceNewlines(a + b) == ReplaceNewlines(a) + ReplaceNewlines(b)
  {
    if a == [] {
      assert a + b == b;
    } else {
      assert (a + b)[0] == a[0];
      assert (a + b)[1..] == a[1..] + b;
      ReplaceNewlinesAppend(a[1..], b);
    }
  }

  const ValidationPrefix := "Input validation error: ["

  /** The body of a validation failure. */
  function ValidationMessage(display: string): string {
    ReplaceNewlines(ValidationPrefix + display + "]")
  }

  /** Replacing newlines leaves newline-free parts around a text as they are. */
  lemma ReplaceAround(p: string, d: string, q: string)
    requires '\n' !in p && '\n' !in q
    ensures ReplaceNewlines(p + d + q) == p + ReplaceNewlines(d) + q
  {
    ReplaceNewlinesAppend(p + d, q);
    ReplaceNewlinesAppend(p, d);
  }

  /** The validation message is the bracketed error list on one line. */
  lemma ValidationMessageShape(display: string)
    ensures var m := ValidationMessage(display);
      && '\n' !in m
      && m == ValidationPrefix + ReplaceNewlines(display) + "]"
  {
    ReplaceAround(ValidationPrefix, display, "]");
  }

  /** Both kinds of refusal are a bad request. */
  function Respond(e: ServerError): (r: Response)
    ensures r.status == StatusBadRequest
    ensures e.ValidationError? ==> r.body == ValidationMessage(e.display) && '\n' !in r.body
    ensures e.JsonRejection? ==> r.body == e.display
  {
    match e
    case ValidationError(display) => Response(StatusBadRequest, ValidationMessage(display))
    case JsonRejection(display) => Response(StatusBadRequest, display)
  }

  datatype Extraction<T> = Accepted(value: T) | Refused(error: ServerError)

  /** The extractor: `parsed` is the body as parsed (None when it is not valid JSON of the
      request's shape, `jsonDisplay` then being the parser's message), `valid` the type's
      declared checks and `display` the rendering of their failures. */
  function FromRequest<T>(parsed: Option<T>, jsonDisplay: string, valid: T -> bool, display: string): (r: Extraction<T>)
    ensures r.Accepted? <==> parsed.Some? && valid(parsed.value)
    ensures r.Accepted? ==> r.value == parsed.value
    ensures parsed.None? ==> r == Refused(JsonRejection(jsonDisplay))
    ensures parsed.Some? && !valid(parsed.value) ==> r == Refused(ValidationError(display))
  {
    match parsed
    case None => Refused(JsonRejection(jsonDisplay))
    case Some(v) => if valid(v) then Accepted(v) else Refused(ValidationError(display))
  }

  /** A handler never sees a request that fails its checks, and every refusal is answered with 400. */
  lemma RefusalIsBadRequest<T>(parsed: Option<T>, jsonDisplay: string, valid: T -> bool, display: string)
    ensures var r := FromRequest(parsed, jsonDisplay, valid, display);
      && (r.Accepted? ==> valid(r.value))
      && (r.Refused? ==> Respond(r.error).status == StatusBadRequest)
  {
  }
}
