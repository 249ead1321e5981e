/**
 * `POST /register-with-username`: attach a username to a user id. An id that
 * already has a username keeps it; an id without one gets it; an unknown id
 * is registered together with the username.
 */
module RegisterWithUsername {
  import opened Wrappers
  import opened Records
  import opened Users
  import Validation

  /** The request's validation: a username of 1 to 32 characters and a user id of at least 5. */
  predicate ValidRequest(username: string, userId: string) {
    1 <= |username| <= 32 && |userId| >= 5
  }

  datatype Reply =
    | Registered(success: bool, userId: string, username: Option<string>, message: string)
    | Error(status: int, message: string)

  /** What a registration does: its reply and the table afterwards. */
  datatype Step = Step(reply: Reply, users: map<string, Option<string>>)

  /** The handler as a function of the table. A failed existence check reads as "absent" (`unwrap_or(false)`);
      `lookupFails` and `writeFails` are failures of the row lookup and of the update or insert. */
  function Register(users: map<string, Option<string>>, username: string, userId: string,
                    existsFails: bool, lookupFails: bool, writeFails: bool): (s: Step)
    requires ValidRequest(username, userId)
    ensures s.reply.Registered? && s.reply.success ==> s.users == users[userId := Some(username)]
    ensures !(s.reply.Registered? && s.reply.success) ==> s.users == users
    ensures s.reply.Error? ==> s.reply.status == StatusServerError
  {
    var known := !existsFails && userId in users;
    if known then
      if lookupFails then Step(Error(StatusServerError, "Failed to retrieve user information"), users)
      else if users[userId].Some? then
        Step(Registered(false, userId, users[userId], "User already has a username registered"), users)
      else if writeFails then Step(Error(StatusServerError, "Failed to register username"), users)
      else Step(Registered(true, userId, Some(username), "Username registered successfully"), users[userId := Some(username)])
    else if writeFails || userId in users then
      Step(Error(StatusServerError, "Failed to register user with username"), users)
    else
      Step(Registered(true, userId, Some(username), "User registered successfully with username"), users[userId := Some(username)])
  }

  /** The three ways a registration succeeds or is refused, when no query fails. */
  lemma RegisterCases(users: map<string, Option<string>>, username: string, userId: string)
    requires ValidRequest(username, userId)
    ensures var s := Register(users, username, userId, false, false, false);
      && (userId in users && users[userId].Some? ==>
            s.reply == Registered(false, userId, users[userId], "User already has a username registered") && s.users == users)
      && (userId in users && users[userId].None? ==>
            s.reply.Registered? && s.reply.success && s.users == users[userId := Some(username)])
      && (userId !in users ==>
            s.reply.Registered? && s.reply.success && s.users == users[userId := Some(username)])
  {
  }

  /** A username, once registered, is never overwritten, whatever fails or succeeds. */
  lemma NeverOverwritten(users: map<string, Option<string>>, username: string, userId: string,
                         existsFails: bool, lookupFails: bool, writeFails: bool)
    requires ValidRequest(username, userId)
    requires userId in users && users[userId].Some?
    ensures Register(users, username, userId, existsFails, lookupFails, writeFails).users == users
  {
  }

  /** Registering twice keeps the first username: the second call changes nothing. */
  lemma SecondRegistrationKeepsFirst(users: map<string, Option<string>>, first: string, second: string, userId: string,
                                     existsFails: bool, lookupFails: bool, writeFails: bool)
    requires ValidRequest(first, userId) && ValidRequest(second, userId)
    requires Register(users, first, userId, false, false, false).reply.success
    ensures var after := Register(users, first, userId, false, false, false).users;
      && after[userId] == Some(first)
      && Register(after, second, userId, existsFails, lookupFails, writeFails).users == after
  {
    var after := Register(users, first, userId, false, false, false).users;
    NeverOverwritten(after, second, userId, existsFails, lookupFails, writeFails);
  }

  /** The endpoint: a request failing its checks is refused with 400 before the handler runs
      (`display` is the rendering of the failed checks). */
  method RegisterWithUsername(reg: Registry, username: string, userId: string, display: string,
                              existsFails: bool, lookupFails: bool, writeFails: bool) returns (reply: Reply)
    modifies reg
    ensures !ValidRequest(username, userId) ==>
      reply == Error(StatusBadRequest, Validation.ValidationMessage(display)) && reg.users == old(reg.users)
    ensures ValidRequest(username, userId) ==>
      var s := Register(old(reg.users), username, userId, existsFails, lookupFails, writeFails);
      reply == s.reply && reg.users == s.users
  {
    if !ValidRequest(username, userId) {
      var refusal := Validation.Respond(Validation.ValidationError(display));
      return Error(refusal.status, refusal.body);
    }
    var known := !existsFails && userId in reg.users;
    if known {
      if lookupFails {
        return Error(StatusServerError, "Failed to retrieve user information");
      }
      var current := reg.users[userId];
      if current.Some? {
        return Registered(false, userId, current, "User already has a username registered");
      }
      if writeFails {
        return Error(StatusServerError, "Failed to register username");
      }
      reg.users := reg.users[userId := Some(username)];
      return Registered(true, userId, Some(username), "Username registered successfully");
    }
    if writeFails || userId in reg.users {
      return Error(StatusServerError, "Failed to register user with username");
    }
    reg.users := reg.users[userId := Some(username)];
    return Registered(true, userId, Some(username), "User registered successfully with username");
  }
}
