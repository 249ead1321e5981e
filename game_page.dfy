/**
 * The game page: how it creates a game (once per visit, quitting a
 * conflicting open game at most once), when the answer buttons are enabled,
 * where it goes on completion or quit, and which image it shows. Server
 * replies are inputs; URLs are written without the API's base address.
 */
module GamePage {
  import opened Wrappers
  import opened Text

  datatype Mode = Pretest | Posttest | Training

  function ModeName(m: Mode): string {
    match m
    case Pretest => "pretest"
    case Posttest => "posttest"
    case Training => "training"
  }

  /** JavaScript truthiness of a number: absent and 0 are false. */
  predicate Truthy(n: Option<int>) {
    n.Some? && n.value != 0
  }

  // ---------------------------------------------------------------- creating a game

  const TestSizeParameter := "&num_challenges=50"

  /** The URL the game is created at. */
  function CreateUrl(m: Mode): string {
    "/games?mode=" + ModeName(m) + (if m == Pretest then TestSizeParameter else "")
  }

  /** Only a pretest asks for fifty challenges. */
  lemma CreateUrlSize(m: Mode)
    ensures EndsWith(CreateUrl(m), TestSizeParameter) <==> m == Pretest
  {
    if m == Pretest {
      EndsWithAppend("/games?mode=" + ModeName(m), TestSizeParameter);
    } else {
      var u := CreateUrl(m);
      assert u[|u| - 1] != '0';
    }
  }

  /** The request body: the user id, and the previewed core when there is one. */
  datatype CreateBody = CreateBody(userId: string, initialCoreId: Option<int>)

  function CreateRequest(userId: string, initialCore: Option<int>): (b: CreateBody)
    ensures b.userId == userId
    ensures b.initialCoreId.Some? <==> Truthy(initialCore)
    ensures b.initialCoreId.Some? ==> b.initialCoreId == initialCore
  {
    CreateBody(userId, if Truthy(initialCore) then initialCore else None)
  }

  /** A reply body: the created game, a JSON error object (with its `existing_game_id` when that is a
      number, its `message` and `error` fields, "" when absent, and its JSON text), or plain text. */
  datatype Body =
    | GameBody(id: int)
    | JsonBody(existingGameId: Option<int>, message: string, error: string, rendered: string)
    | TextBody(text: string)

  datatype Response = Response(status: int, body: Body)

  /** An awaited promise: it resolves to a value, or rejects with an error whose message is given
      (a network error, or a connection the server dropped). */
  datatype Fetch<T> = Rejected(message: string) | Resolved(value: T)

  /** The quit reply; its body is read as text only when the quit failed, and that read can reject too. */
  datatype QuitReply = QuitReply(status: int, text: Fetch<string>)

  predicate Ok(status: int) {
    200 <= status <= 299
  }

  datatype Created = Created(gameId: int) | Failed(message: string)

  /** The outcome, with the numbers of create and quit requests sent. */
  datatype Flow = Flow(outcome: Created, creates: nat, quits: nat)

  const ReusedIdHint := "You may have reused an existing User ID"

  /** What a 400 reply says: the open game to quit, if any, and its message. A body that is not JSON
      is read as text from a clone. */
  function ConflictOf(b: Body): (Option<int>, string) {
    match b
    case JsonBody(existing, message, _, _) => (existing, message)
    case TextBody(text) => (None, if text != "" then text else "Failed to create game (400).")
    case GameBody(_) => (None, "")
  }

  function NoOpenGameMessage(message: string): string {
    if message != "" then message else "Failed to create game (400). No existing game ID found to attempt quit."
  }

  function QuitFailureMessage(gameId: int, status: int, text: string): string {
    "Failed to quit existing game " + IntToString(gameId) + ": " + IntToString(status) + " " + text + ". " + ReusedIdHint
  }

  /** The error text of any other failed reply. A body that is not JSON was consumed by the failed parse,
      so reading it as text fails too and only the status is reported. */
  function ErrorText(r: Response): string {
    match r.body
    case JsonBody(_, message, error, rendered) => if message != "" then message else if error != "" then error else rendered
    case _ => "Server " + IntToString(r.status)
  }

  /** A successful reply carries the created game. */
  predicate WellFormedReply(r: Response) {
    Ok(r.status) ==> r.body.GameBody?
  }

  function Finish(res: Response, creates: nat, quits: nat): Flow
    requires WellFormedReply(res)
  {
    if !Ok(res.status) then Flow(Failed(ErrorText(res)), creates, quits) else Flow(Created(res.body.id), creates, quits)
  }

  predicate WellFormedFetch(f: Fetch<Response>) {
    f.Resolved? ==> WellFormedReply(f.value)
  }

  /** The first reply is a 400 that names an open game to quit. */
  predicate Conflict(first: Fetch<Response>) {
    first.Resolved? && first.value.status == 400 && Truthy(ConflictOf(first.value.body).0)
  }

  /** The quit request resolved with a success status. */
  predicate QuitSucceeded(quit: Fetch<QuitReply>) {
    quit.Resolved? && Ok(quit.value.status)
  }

  /** `createGameAsync` as a function of the awaited promises: `first` is the creation, `quit` the quit
      of a conflicting game, `retry` the creation after that quit. A rejection ends the mutation with
      its message, which `onError` shows. */
  function CreateFlow(first: Fetch<Response>, quit: Fetch<QuitReply>, retry: Fetch<Response>): (f: Flow)
    requires WellFormedFetch(first) && WellFormedFetch(retry)
  {
    match first
    case Rejected(m) => Flow(Failed(m), 1, 0)
    case Resolved(res) =>
      if res.status == 400 then
        var (open, message) := ConflictOf(res.body);
        if Truthy(open) then
          match quit
          case Rejected(m) => Flow(Failed(m), 1, 1)
          case Resolved(q) =>
            if !Ok(q.status) then
              match q.text
              case Rejected(m) => Flow(Failed(m), 1, 1)
              case Resolved(t) => Flow(Failed(QuitFailureMessage(open.value, q.status, t)), 1, 1)
            else
              match retry
              case Rejected(m) => Flow(Failed(m), 2, 1)
              case Resolved(r) => Finish(r, 2, 1)
        else Flow(Failed(NoOpenGameMessage(message)), 1, 0)
      else Finish(res, 1, 0)
  }

  /** A 400 naming an open game leads to exactly one quit, and to exactly one retry when the quit succeeds;
      a failed quit ends in an error that suggests a reused user id. Without an open game there is no quit.
      A rejected request ends the flow with its message and sends nothing further. */
  lemma ConflictResolution(first: Fetch<Response>, quit: Fetch<QuitReply>, retry: Fetch<Response>)
    requires WellFormedFetch(first) && WellFormedFetch(retry)
    ensures var f := CreateFlow(first, quit, retry);
      && f.quits <= 1 && f.creates == 1 + (if f.quits == 1 && QuitSucceeded(quit) then 1 else 0)
      && (f.quits == 1 <==> Conflict(first))
      && (f.quits == 1 && quit.Resolved? && !Ok(quit.value.status) && quit.value.text.Resolved? ==>
            f.outcome.Failed? && EndsWith(f.outcome.message, ReusedIdHint))
      && (first.Resolved? && first.value.status == 400 && !Conflict(first) ==> f.outcome.Failed?)
      && (f.outcome.Created? ==>
            (first.Resolved? && Ok(first.value.status)) || (f.creates == 2 && retry.Resolved? && Ok(retry.value.status)))
      && (first.Rejected? ==> f == Flow(Failed(first.message), 1, 0))
      && (Conflict(first) && quit.Rejected? ==> f == Flow(Failed(quit.message), 1, 1))
      && (Conflict(first) && quit.Resolved? && !Ok(quit.value.status) && quit.value.text.Rejected? ==>
            f == Flow(Failed(quit.value.text.message), 1, 1))
      && (f.creates == 2 && retry.Rejected? ==> f.outcome == Failed(retry.message))
  {
    if Conflict(first) && quit.Resolved? && !Ok(quit.value.status) && quit.value.text.Resolved? {
      var open := ConflictOf(first.value.body).0.value;
      var prefix := "Failed to quit existing game " + IntToString(open) + ": " + IntToString(quit.value.status)
                    + " " + quit.value.text.value + ". ";
      assert QuitFailureMessage(open, quit.value.status, quit.value.text.value) == prefix + ReusedIdHint;
      EndsWithAppend(prefix, ReusedIdHint);
    }
  }

  /** `createGameAsync`: the reply is reassigned when a conflicting game is quit and creation retried. */
  method CreateGameAsync(first: Fetch<Response>, quit: Fetch<QuitReply>, retry: Fetch<Response>)
    returns (outcome: Created, creates: nat, quits: nat)
    requires WellFormedFetch(first) && WellFormedFetch(retry)
    ensures Flow(outcome, creates, quits) == CreateFlow(first, quit, retry)
  {
    creates, quits := 1, 0;
    if first.Rejected? {
      return Failed(first.message), creates, quits;
    }
    var res := first.value;
    if res.status == 400 {
      var (open, message) := ConflictOf(res.body);
      if open.Some? && open.value != 0 {
        quits := 1;
        if quit.Rejected? {
          return Failed(quit.message), creates, quits;
        }
        if !Ok(quit.value.status) {
          if quit.value.text.Rejected? {
            return Failed(quit.value.text.message), creates, quits;
          }
          return Failed(QuitFailureMessage(open.value, quit.value.status, quit.value.text.value)), creates, quits;
        }
        creates := 2;
        if retry.Rejected? {
          return Failed(retry.message), creates, quits;
        }
        res := retry.value;
      } else {
        return Failed(NoOpenGameMessage(message)), creates, quits;
      }
    }
    if !Ok(res.status) {
      return Failed(ErrorText(res)), creates, quits;
    }
    return Created(res.body.id), creates, quits;
  }

  // ---------------------------------------------------------------- paths

  function GamePath(m: Mode, gameId: int): string {
    if m == Training then "/game/" + IntToString(gameId) else "/" + ModeName(m) + "/game/" + IntToString(gameId)
  }

  function ChallengePath(m: Mode, gameId: int, challengeId: int): string {
    if m == Training then "/game/" + IntToString(gameId) + "/" + IntToString(challengeId)
    else "/" + ModeName(m) + "/game/" + IntToString(gameId) + "/" + IntToString(challengeId)
  }

  /** A challenge's path extends its game's path, and a training path is the only one without a mode. */
  lemma PathsByMode(m: Mode, gameId: int, challengeId: int)
    ensures ChallengePath(m, gameId, challengeId) == GamePath(m, gameId) + "/" + IntToString(challengeId)
    ensures StartsWith(GamePath(m, gameId), "/game/") <==> m == Training
    ensures m != Training ==> StartsWith(GamePath(m, gameId), "/" + ModeName(m) + "/game/")
  {
    var id := IntToString(gameId);
    if m == Training {
      StartsWithAppend("/game/", id);
    } else {
      StartsWithAppend("/" + ModeName(m) + "/game/", id);
      assert GamePath(m, gameId)[1] != 'g';
    }
  }

  // ---------------------------------------------------------------- leaving the game

  /** Where to go next, whether the stored mode becomes "training", and whether cached game queries are dropped. */
  datatype Route = Route(path: string, setTraining: bool, dropQueries: bool)

  function ResultsPath(gameId: int): string {
    "/games/" + IntToString(gameId) + "/results"
  }

  /** When every challenge is answered: a pretest hands over to training at the menu, a posttest
      returns to the menu, and a training game shows its results. */
  function CompletionRoute(storedMode: Option<string>, gameId: int): (r: Route)
    ensures !r.dropQueries
    ensures r.setTraining <==> storedMode == Some("pretest")
    ensures r.path == "/menu" <==> storedMode == Some("pretest") || storedMode == Some("posttest")
  {
    if storedMode == Some("pretest") then Route("/menu", true, false)
    else if storedMode == Some("posttest") then Route("/menu", false, false)
    else Route(ResultsPath(gameId), false, false)
  }

  /** After a quit: a game quit before any answer goes home; a test game goes to the menu in training
      mode; a training game shows its results. `completed` is absent when no progress was loaded. */
  function QuitRoute(completed: Option<int>, storedMode: Option<string>, gameId: int): (r: Route)
    ensures completed == Some(0) ==> r == Route("/", false, false)
    ensures completed != Some(0) && (storedMode == Some("pretest") || storedMode == Some("posttest")) ==>
      r == Route("/menu", true, true)
    ensures r.setTraining <==> r.dropQueries
  {
    if completed == Some(0) then Route("/", false, false)
    else if storedMode == Some("pretest") || storedMode == Some("posttest") then Route("/menu", true, true)
    else Route(ResultsPath(gameId), false, false)
  }

  /** Results are shown only for games that are not tests. */
  lemma ResultsOnlyForTraining(storedMode: Option<string>, completed: Option<int>, gameId: int)
    ensures CompletionRoute(storedMode, gameId).path == ResultsPath(gameId) ==>
      storedMode != Some("pretest") && storedMode != Some("posttest")
    ensures QuitRoute(completed, storedMode, gameId).path == ResultsPath(gameId) ==>
      completed != Some(0) && storedMode != Some("pretest") && storedMode != Some("posttest")
  {
    var p := ResultsPath(gameId);
    assert p[1] == 'g';
  }

  // ---------------------------------------------------------------- the image

  /** The stored mode as it is written into a URL. */
  function ModeText(storedMode: Option<string>): string {
    match storedMode
    case None => "null"
    case Some(s) => s
  }

  function StandardImageUrl(challengeId: int, storedMode: Option<string>): string {
    "/challenges/" + IntToString(challengeId) + "/core?mode=" + ModeText(storedMode)
  }

  function PreviewImageUrl(coreId: int): string {
    "/api/" + ("her2_core_images/" + IntToString(coreId))
  }

  /** The previewed image is reused only for the very first challenge, when it is the previewed core. */
  predicate UsesPreview(coreId: Option<int>, initialCore: Option<int>, completed: int) {
    Truthy(initialCore) && Truthy(coreId) && coreId == initialCore && completed == 0
  }

  /** The image shown: none without a current challenge; otherwise the preview or the standard URL,
      which also stamps the challenge's start. */
  function ImageUrl(challengeId: Option<int>, coreId: Option<int>, initialCore: Option<int>, completed: int,
                    storedMode: Option<string>): (url: string)
    ensures !Truthy(challengeId) ==> url == ""
    ensures Truthy(challengeId) && UsesPreview(coreId, initialCore, completed) ==> url == PreviewImageUrl(initialCore.value)
    ensures Truthy(challengeId) && !UsesPreview(coreId, initialCore, completed) ==>
      url == StandardImageUrl(challengeId.value, storedMode)
  {
    if !Truthy(challengeId) then ""
    else if UsesPreview(coreId, initialCore, completed) then PreviewImageUrl(initialCore.value)
    else StandardImageUrl(challengeId.value, storedMode)
  }

  lemma PreviewIsApi(coreId: int)
    ensures StartsWith(PreviewImageUrl(coreId), "/api/")
  {
    StartsWithAppend("/api/", "her2_core_images/" + IntToString(coreId));
  }

  lemma StandardIsNotApi(challengeId: int, storedMode: Option<string>)
    ensures !StartsWith(StandardImageUrl(challengeId, storedMode), "/api/")
  {
    var url := StandardImageUrl(challengeId, storedMode);
    assert url == "/challenges/" + (IntToString(challengeId) + "/core?mode=" + ModeText(storedMode));
    assert url[1] == 'c';
  }

  /** The two kinds of image URL never coincide, so the preview is shown exactly when its condition holds. */
  lemma PreviewIffCondition(challengeId: Option<int>, coreId: Option<int>, initialCore: Option<int>, completed: int,
                            storedMode: Option<string>)
    requires Truthy(challengeId)
    ensures var url := ImageUrl(challengeId, coreId, initialCore, completed, storedMode);
      StartsWith(url, "/api/") <==> UsesPreview(coreId, initialCore, completed)
  {
    if UsesPreview(coreId, initialCore, completed) {
      PreviewIsApi(initialCore.value);
    } else {
      StandardIsNotApi(challengeId.value, storedMode);
    }
  }

  // ---------------------------------------------------------------- the page's state

  /** The page's own state: the game it plays, whether creation was attempted, whether the answer buttons
      may be enabled, the challenge whose five-second timer is pending, and the creations requested. */
  class Page {
    var activeGameId: Option<int>
    var creationAttempted: bool
    var buttonsCanBeEnabled: bool
    var timerFor: Option<int>
    var createsRequested: nat

    /** A game is created at most once per visit, and only after the attempt is recorded. */
    ghost predicate Valid() reads this {
      createsRequested <= 1 && (createsRequested == 1 ==> creationAttempted)
    }

    constructor ()
      ensures Valid()
      ensures activeGameId == None && !creationAttempted && !buttonsCanBeEnabled && timerFor == None && createsRequested == 0
    {
      activeGameId := None;
      creationAttempted := false;
      buttonsCanBeEnabled := false;
      timerFor := None;
      createsRequested := 0;
    }

    /** The effect run when the URL's game id, the user id or the mode changes. A game id in the URL is
        adopted; without one, a logged-in user gets a game created unless that was already attempted. */
    method GameIdEffect(urlGameId: Option<int>, authUserId: Option<string>)
      requires Valid()
      modifies this
      ensures Valid()
      ensures buttonsCanBeEnabled == old(buttonsCanBeEnabled) && timerFor == old(timerFor)
      ensures Truthy(urlGameId) ==>
        activeGameId == urlGameId && creationAttempted && createsRequested == old(createsRequested)
      ensures !Truthy(urlGameId) ==> activeGameId == old(activeGameId)
      ensures !Truthy(urlGameId) && authUserId.Some? && authUserId.value != "" && !old(creationAttempted) ==>
        creationAttempted && createsRequested == old(createsRequested) + 1
      ensures !Truthy(urlGameId) && !(authUserId.Some? && authUserId.value != "" && !old(creationAttempted)) ==>
        creationAttempted == old(creationAttempted) && createsRequested == old(createsRequested)
    {
      if urlGameId.Some? && urlGameId.value != 0 {
        if activeGameId != urlGameId {
          activeGameId := urlGameId;
        }
        creationAttempted := true;
      } else if authUserId.Some? && authUserId.value != "" && !creationAttempted {
        creationAttempted := true;
        createsRequested := createsRequested + 1;
      }
    }

    /** The creation succeeded: the new game becomes the active one. */
    method CreationSucceeded(gameId: int)
      requires Valid()
      modifies this
      ensures Valid()
      ensures activeGameId == Some(gameId)
      ensures creationAttempted == old(creationAttempted) && createsRequested == old(createsRequested)
      ensures buttonsCanBeEnabled == old(buttonsCanBeEnabled) && timerFor == old(timerFor)
    {
      activeGameId := Some(gameId);
    }

    /** The effect run when the current challenge's id or the active game changes: a new challenge
        disables the buttons and starts its five-second timer, cancelling any earlier one. */
    method ChallengeChanged(challengeId: Option<int>)
      requires Valid()
      modifies this
      ensures Valid()
      ensures activeGameId == old(activeGameId) && creationAttempted == old(creationAttempted)
      ensures createsRequested == old(createsRequested)
      ensures Truthy(challengeId) && Truthy(activeGameId) ==> !buttonsCanBeEnabled && timerFor == challengeId
      ensures !(Truthy(challengeId) && Truthy(activeGameId)) ==> timerFor == None
      ensures !Truthy(activeGameId) ==> !buttonsCanBeEnabled
      ensures buttonsCanBeEnabled ==> old(buttonsCanBeEnabled)
    {
      if challengeId.Some? && challengeId.value != 0 && activeGameId.Some? && activeGameId.value != 0 {
        buttonsCanBeEnabled := false;
        timerFor := challengeId;
      } else {
        timerFor := None;
        if !(activeGameId.Some? && activeGameId.value != 0) {
          buttonsCanBeEnabled := false;
        }
      }
    }

    /** The five-second timer of a challenge fires; a cancelled timer does nothing. */
    method TimerFired(challengeId: int)
      requires Valid()
      modifies this
      ensures Valid()
      ensures activeGameId == old(activeGameId) && creationAttempted == old(creationAttempted)
      ensures createsRequested == old(createsRequested) && timerFor == old(timerFor)
      ensures buttonsCanBeEnabled == (old(buttonsCanBeEnabled) || old(timerFor) == Some(challengeId))
    {
      if timerFor == Some(challengeId) {
        buttonsCanBeEnabled := true;
      }
    }

    /** An answer button is enabled once the timer has fired and while no guess is being submitted. */
    function AnswerEnabled(submitting: bool): bool reads this {
      buttonsCanBeEnabled && !submitting
    }
  }
}
