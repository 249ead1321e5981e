/**
 * The introduction page: a participant enters an email address, agrees to
 * take part, and is sent a user id, which the page stores before moving on
 * to the pretest menu.
 */
module IntroductionPage {
  import opened Wrappers
  import opened Text
  import Auth
  import GenerateUserId

  /** The client's domain check, which also admits a third domain. */
  predicate EmailIsValid(email: string) {
    EndsWith(email, "@mednet.ucla.edu") || EndsWith(email, "@ucla.edu") || EndsWith(email, "@mail.huji.ac.il")
  }

  /** Every address the server accepts passes here, but not conversely: the third domain is refused by the server. */
  lemma ClientDomainsIncludeServers(email: string)
    ensures GenerateUserId.AllowedEmail(email) ==> EmailIsValid(email)
    ensures EmailIsValid("a@mail.huji.ac.il") && !GenerateUserId.AllowedEmail("a@mail.huji.ac.il")
  {
    var e := "a@mail.huji.ac.il";
    NotEndsWith(e, "@ucla.edu", 0);
    NotEndsWith(e, "@mednet.ucla.edu", 3);
    EndsWithAppend("a", "@mail.huji.ac.il");
  }

  /** The register button is enabled only when idle, agreed and with a valid address. */
  predicate RegisterEnabled(loading: bool, agreed: bool, email: string) {
    !loading && agreed && EmailIsValid(email)
  }

  const InvalidEmail := "Please enter a valid @mednet.ucla.edu, @ucla.edu, or @mail.huji.ac.il email address"
  const MenuPath := "/pretest/menu"

  /** A reply body: the JSON of `generate-user-id` (fields "" or false when absent), or text that is not JSON. */
  datatype Body = Json(success: bool, userId: string, message: string) | NotJson

  /** The fetch: a reply, or the network error's message. `parseError` is the message of the
      exception a failed JSON parse throws. */
  datatype Reply = NetworkError(message: string) | Got(status: int, body: Body, parseError: string)

  predicate Ok(status: int) { 200 <= status <= 299 }

  /** `err.message || 'An error occurred during registration'`. */
  function Caught(message: string): string {
    if message != "" then message else "An error occurred during registration"
  }

  /** The page's `error` after submitting a valid address, as written: a failed reply is read a second
      time, which throws (`bodyUsed` is that exception's message) instead of reporting the server's message. */
  function ErrorAsWritten(r: Reply, bodyUsed: string): (e: Option<string>)
    ensures e.None? <==> r.Got? && r.body.Json? && Ok(r.status) && r.body.success
    ensures r.Got? && r.body.Json? && !Ok(r.status) ==> e == Some(Caught(bodyUsed))
  {
    match r
    case NetworkError(m) => Some(Caught(m))
    case Got(status, body, parseError) =>
      if body.NotJson? then Some(Caught(parseError))
      else if !Ok(status) then Some(Caught(bodyUsed))
      else if !body.success then Some(if body.message != "" then body.message else "registration failed")
      else None
  }

  /** The intended reading: a failed reply reports the message it carries, or "Failed to register". */
  function ErrorOf(r: Reply): (e: Option<string>)
    ensures e.None? <==> r.Got? && r.body.Json? && Ok(r.status) && r.body.success
    ensures r.Got? && r.body.Json? && !Ok(r.status) ==>
      e == Some(if r.body.message != "" then r.body.message else "Failed to register")
  {
    match r
    case NetworkError(m) => Some(Caught(m))
    case Got(status, body, parseError) =>
      if body.NotJson? then Some(Caught(parseError))
      else if !Ok(status) then Some(if body.message != "" then body.message else "Failed to register")
      else if !body.success then Some(if body.message != "" then body.message else "registration failed")
      else None
  }

  /** The two readings differ on a failed JSON reply (such as a gateway's error page): as written its
      message is never shown. */
  lemma ServerMessageLostAsWritten()
    ensures var r := Got(502, Json(false, "", "Bad gateway"), "Unexpected token");
      && ErrorAsWritten(r, "Body is unusable") == Some("Body is unusable")
      && ErrorOf(r) == Some("Bad gateway")
  {
  }

  lemma AsWrittenAgreesElsewhere(r: Reply, bodyUsed: string)
    requires !(r.Got? && r.body.Json? && !Ok(r.status))
    ensures ErrorAsWritten(r, bodyUsed) == ErrorOf(r)
  {
  }

  /** How a failed reply is read: as written, where the second read throws with message `bodyUsed`,
      or as intended. */
  datatype Reading = AsWritten(bodyUsed: string) | Intended

  /** The error shown for a reply under `reading`. */
  function ErrorUnder(reading: Reading, r: Reply): Option<string> {
    if reading.AsWritten? then ErrorAsWritten(r, reading.bodyUsed) else ErrorOf(r)
  }

  /** The page's state. */
  class Page {
    var loading: bool
    var error: Option<string>
    var success: bool
    /** The navigation scheduled to happen five seconds later, if any. */
    var scheduled: Option<string>

    constructor ()
      ensures !loading && error == None && !success && scheduled == None
    {
      loading, error, success, scheduled := false, None, false, None;
    }

    /** `handleSubmit`. An invalid address is refused without a request; otherwise the reply decides,
        read under `reading` (`AsWritten` is the page as it stands). */
    method HandleSubmit(store: Auth.SessionStore, email: string, reply: Reply, reading: Reading) returns (requested: bool)
      modifies this, store
      ensures !loading
      ensures requested <==> EmailIsValid(email)
      ensures !EmailIsValid(email) ==>
        error == Some(InvalidEmail) && store.items == old(store.items) && success == old(success) && scheduled == old(scheduled)
      ensures EmailIsValid(email) ==> error == ErrorUnder(reading, reply)
      ensures EmailIsValid(email) ==> (error.None? <==> reply.Got? && reply.body.Json? && Ok(reply.status) && reply.body.success)
      ensures EmailIsValid(email) && error.Some? ==>
        store.items == old(store.items) && success == old(success) && scheduled == old(scheduled)
      ensures EmailIsValid(email) && error.None? ==>
        && store.items == old(store.items)[Auth.UserIdKey := reply.body.userId][Auth.EmailKey := email]
        && success && scheduled == Some(MenuPath)
    {
      loading := true;
      error := None;
      if !EmailIsValid(email) {
        error := Some(InvalidEmail);
        loading := false;
        return false;
      }
      requested := true;
      error := ErrorUnder(reading, reply);
      if error.None? {
        store.SetUserId(reply.body.userId);
        store.SetEmail(email);
        success := true;
        scheduled := Some(MenuPath);
      }
      loading := false;
    }
  }
}
