/**
 * The test registration form: an email address is sent to `generate-user-id`
 * and the returned id is stored as the username.
 */
module TestRegisterForm {
  import opened Wrappers
  import opened FormChecks
  import Auth

  const DefaultEmail := "holdengs@ucla.edu"

  /** The address the form starts with: the stored one, or a fixed default. */
  function InitialEmail(items: map<string, string>): (e: string)
    ensures Auth.EmailKey in items ==> e == items[Auth.EmailKey]
    ensures Auth.EmailKey !in items ==> e == DefaultEmail
  {
    Auth.Get(items, Auth.EmailKey).GetOr(DefaultEmail)
  }

  /** `validate`: an address is required and must contain '@'. */
  function Validate(email: string): (e: Option<string>)
    ensures e.None? <==> email != "" && '@' in email
    ensures email == "" ==> e == Some("Required")
  {
    if email == "" then Some("Required") else if '@' !in email then Some("Invalid email format") else None
  }

  datatype Reply = Reply(status: int, text: string, userId: string)

  /** What the form shows: the registration message, or an error on the email field. */
  datatype Outcome = Registered(message: string) | FieldError(message: string)

  datatype Result = Result(outcome: Outcome, items: map<string, string>)

  const ResultPrefix := "Registration successful! Your user ID is: "

  /** `submit` as a function of the reply (`Thrown` when fetching or parsing it threw). */
  function Submit(items: map<string, string>, email: string, reply: Fetched<Reply>): (r: Result)
    ensures r.outcome.FieldError? ==> r.items == items
  {
    match reply
    case Thrown => Result(FieldError("Error processing request"), items)
    case Got(rep) =>
      if rep.status != 200 then Result(FieldError("Failed to register: " + rep.text), items)
      else Result(Registered(ResultPrefix + rep.userId), items[Auth.EmailKey := email][Auth.UsernameKey := rep.userId])
  }

  /** A success stores the address and the returned id (as the username) and shows that id; a failure
      shows the server's text; an exception is reported as such. */
  lemma SubmitOutcomes(items: map<string, string>, email: string, reply: Fetched<Reply>)
    ensures var r := Submit(items, email, reply);
      && (reply.Thrown? ==> r.outcome == FieldError("Error processing request") && r.items == items)
      && (reply.Got? && reply.reply.status != 200 ==>
            r.outcome == FieldError("Failed to register: " + reply.reply.text) && r.items == items)
      && (reply.Got? && reply.reply.status == 200 ==>
            && Auth.Get(r.items, Auth.EmailKey) == Some(email)
            && Auth.Get(r.items, Auth.UsernameKey) == Some(reply.reply.userId)
            && r.outcome.Registered?
            && r.outcome.message[|ResultPrefix|..] == reply.reply.userId)
  {
  }

  method SubmitForm(store: Auth.SessionStore, email: string, reply: Fetched<Reply>) returns (outcome: Outcome)
    modifies store
    ensures Result(outcome, store.items) == Submit(old(store.items), email, reply)
  {
    if reply.Thrown? {
      return FieldError("Error processing request");
    }
    if reply.reply.status != 200 {
      return FieldError("Failed to register: " + reply.reply.text);
    }
    store.SetEmail(email);
    store.SetUsername(reply.reply.userId);
    return Registered(ResultPrefix + reply.reply.userId);
  }
}
