/**
 * The pretest form: a user id and a username are checked, then the user id
 * is validated, its username looked up and, when it has none, registered,
 * before the pretest starts.
 */
module PreTestPlayForm {
  import opened Wrappers
  import opened FormChecks
  import Auth

  /** The errors of the two fields. */
  datatype Errors = Errors(userId: Option<string>, username: Option<string>)

  function Validate(userId: string, username: string): (e: Errors)
    ensures e.userId == CheckField(userId) && e.username == CheckField(username)
    ensures e == Errors(None, None) <==> 1 <= |userId| <= 32 && 1 <= |username| <= 32
  {
    Errors(CheckField(userId), CheckField(username))
  }

  datatype CheckReply = CheckReply(status: int, hasUsername: bool, username: Option<string>)
  datatype RegisterReply = RegisterReply(status: int, username: Option<string>)

  datatype Outcome = Navigated(path: string) | FieldError(field: string, message: string)

  /** The outcome, whether registration was requested, and the session storage afterwards. */
  datatype Result = Result(outcome: Outcome, registerCalled: bool, items: map<string, string>)

  const PretestPath := "/game?mode=pretest"
  const ProcessingError := FieldError("user_id", "Error processing request")

  /** Start the pretest as `username`, when one is given. */
  function StartPretest(items: map<string, string>, username: Option<string>, registerCalled: bool): Result {
    var named := if Truthy(username) then items[Auth.UsernameKey := username.value] else items;
    Result(Navigated(PretestPath), registerCalled, named[Auth.GameModeKey := "pretest"])
  }

  /** `submit` as a function of the three replies: validation of the id, the username lookup, the registration. */
  function Submit(items: map<string, string>, validation: Fetched<int>, check: Fetched<CheckReply>,
                  register: Fetched<RegisterReply>): (r: Result)
    ensures r.outcome.FieldError? ==> r.items == items
    ensures r.outcome.Navigated? ==> r.outcome.path == PretestPath && Auth.Get(r.items, Auth.GameModeKey) == Some("pretest")
  {
    match validation
    case Thrown => Result(ProcessingError, false, items)
    case Got(status) =>
      if status != 200 then Result(FieldError("user_id", "Invalid user ID"), false, items)
      else match check
        case Thrown => Result(ProcessingError, false, items)
        case Got(c) =>
          if c.status == 200 && c.hasUsername then StartPretest(items, c.username, false)
          else match register
            case Thrown => Result(ProcessingError, true, items)
            case Got(reg) =>
              if reg.status != 200 then Result(FieldError("username", "Failed to register username"), true, items)
              else if Truthy(reg.username) then StartPretest(items, reg.username, true)
              else Result(FieldError("username", "Missing user ID in response"), true, items)
  }

  /** An id the server does not validate stops the form: an error on the id, no further request, nothing stored. */
  lemma InvalidIdStops(items: map<string, string>, status: int, check: Fetched<CheckReply>, register: Fetched<RegisterReply>)
    requires status != 200
    ensures Submit(items, Got(status), check, register) == Result(FieldError("user_id", "Invalid user ID"), false, items)
  {
  }

  /** A user who already has a username starts the pretest under it without registering. */
  lemma ExistingUsernameSkipsRegistration(items: map<string, string>, c: CheckReply, register: Fetched<RegisterReply>)
    requires c.status == 200 && c.hasUsername
    ensures var r := Submit(items, Got(200), Got(c), register);
      && !r.registerCalled && r.outcome == Navigated(PretestPath)
      && Auth.Get(r.items, Auth.UsernameKey) == (if Truthy(c.username) then c.username else Auth.Get(items, Auth.UsernameKey))
  {
  }

  /** Registration decides the rest: a failed one is an error on the username with nothing stored; a
      successful one stores the returned username and starts the pretest, unless the name is missing. */
  lemma RegistrationOutcome(items: map<string, string>, c: CheckReply, reg: RegisterReply)
    requires !(c.status == 200 && c.hasUsername)
    ensures var r := Submit(items, Got(200), Got(c), Got(reg));
      && r.registerCalled
      && (reg.status != 200 ==> r.outcome == FieldError("username", "Failed to register username") && r.items == items)
      && (reg.status == 200 && Truthy(reg.username) ==>
            r.outcome == Navigated(PretestPath) && Auth.Get(r.items, Auth.UsernameKey) == reg.username)
      && (reg.status == 200 && !Truthy(reg.username) ==> r.outcome.FieldError? && r.outcome.field == "username")
  {
  }

  /** An exception at whichever request is reached ends in the same error on the id, with nothing stored. */
  lemma ExceptionsReported(items: map<string, string>, validation: Fetched<int>, check: Fetched<CheckReply>,
                           register: Fetched<RegisterReply>)
    requires || validation.Thrown?
             || (validation == Got(200) && check.Thrown?)
             || (validation == Got(200) && check.Got? && !(check.reply.status == 200 && check.reply.hasUsername) && register.Thrown?)
    ensures var r := Submit(items, validation, check, register);
      r.outcome == ProcessingError && r.items == items
  {
  }

  /** `submit`, writing to the session store as it goes. */
  method SubmitForm(store: Auth.SessionStore, validation: Fetched<int>, check: Fetched<CheckReply>,
                    register: Fetched<RegisterReply>) returns (outcome: Outcome, registerCalled: bool)
    modifies store
    ensures Result(outcome, registerCalled, store.items) == Submit(old(store.items), validation, check, register)
  {
    registerCalled := false;
    if validation.Thrown? {
      return ProcessingError, registerCalled;
    }
    if validation.reply != 200 {
      return FieldError("user_id", "Invalid user ID"), registerCalled;
    }
    if check.Thrown? {
      return ProcessingError, registerCalled;
    }
    if check.reply.status == 200 && check.reply.hasUsername {
      if Truthy(check.reply.username) {
        store.SetUsername(check.reply.username.value);
      }
      store.SetGameMode("pretest");
      return Navigated(PretestPath), registerCalled;
    }
    registerCalled := true;
    if register.Thrown? {
      return ProcessingError, registerCalled;
    }
    if register.reply.status != 200 {
      return FieldError("username", "Failed to register username"), registerCalled;
    }
    if Truthy(register.reply.username) {
      store.SetUsername(register.reply.username.value);
      store.SetGameMode("pretest");
      return Navigated(PretestPath), registerCalled;
    }
    return FieldError("username", "Missing user ID in response"), registerCalled;
  }
}
