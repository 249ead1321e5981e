# BioGames in Dafny

BioGames is a web game for training pathologists to grade HER2 staining on
tissue cores. A player is given a user id and plays games. A game is a set of
challenges, one image per challenge. For each image the player guesses a HER2
level from 0 to 3. A confusion matrix scores the guess against the core's
ground truth, and a game's score is the sum of its challenges' points.
Pretest and posttest games use a fixed set of 50 test images; training games
draw 20 images from all the others.

This project models two parts of the system:

- the Rust HTTP server's endpoints (`biogames-api`): creating, playing,
  quitting and reviewing games, plus registering and checking users;
- the TypeScript client's logic (`biogames-client`): the session store, the
  forms that register a player, the game page's creation, routing and image
  choice, the zoomable image viewer, time formatting, and the leaderboard's
  presentation.

**How the server is modelled.**
- Database tables are a `Records.Database` class: `challenges` is an ascending
  `seq`, `games` and `her2_cores` are maps, and each serial counter is a field.
  Its invariant includes the foreign key from `challenges.game_id` to `games.id`.
- The endpoints change that state in place. Each endpoint that writes is a
  method proved against a pure function of the old tables.
- The registered-users table is a `Users.Registry` class, a map from a user id
  to an optional username.
- Every SQL query that can fail gets a boolean parameter saying whether it fails.
- The server clock is a parameter, `now`, in milliseconds.
- Randomness is a parameter too: `order by random()` becomes a given
  permutation, and the id generator's word and digit choices become a given
  sequence of draws.
- A panic from `unwrap` or `expect` is an outcome of its own (`Panic` or
  `Crashed`), because it never produces an HTTP reply.

**How the client is modelled.**
- Pure helpers are functions.
- The components' state (the zoomable image, the game page, the forms) is
  modelled as classes whose methods are the event handlers.
- `sessionStorage` is `Auth.SessionStore`, a class holding a string map.
- Each server reply is a parameter. In the forms, a reply that throws while
  being fetched or read is `FormChecks.Fetched.Thrown`. On the game page, an
  awaited request that rejects is `GamePage.Fetch.Rejected`, carrying the
  error's message.

## Model

| member | source | states |
|---|---|---|
| Scoring.GetScore | biogames-api/src/scoring.rs:12-17 | the score lies in -5..5; out-of-range levels give the highest penalty -5; full marks imply an exact guess |
| Scoring.ScoreIsMatrixEntry | biogames-api/src/scoring.rs:4-9 | in range, the score is the matrix entry at row guess, column ground truth |
| Scoring.CorrectIffExact | biogames-api/src/scoring.rs:4-17 | in range, 5 points exactly when the guess equals the ground truth |
| Scoring.WrongGuessIsPenalised | biogames-api/src/scoring.rs:4-17 | every wrong in-range guess costs between 1 and 5 points |
| Scoring.ScoreValues | biogames-api/src/scoring.rs:4-17 | every score is 5, -1, -2 or at most -3, which are the four result categories |
| Scoring.NotSymmetric | biogames-api/src/scoring.rs:5-6 | the matrix is not symmetric: guessing 0 for a 1 costs -2, guessing 1 for a 0 costs -1 |
| Records.OfGame | biogames-api/src/endpoints/quit_game.rs:35 | the rows of one game are exactly the table rows with that game id, still in id order |
| Records.Find | biogames-api/src/endpoints/submit_challenge.rs:24-28 | a row found by id is in the table with that id; no row found means no row has it |
| Records.Replace | biogames-api/src/endpoints/submit_challenge.rs:53-61 | an update by id replaces exactly the rows with that id and keeps every id in place |
| Records.FindInAscending | biogames-api/src/endpoints/submit_challenge.rs:24-28 | in an ascending table the lookup by a row's id finds that very row |
| Records.SqlAdd | biogames-api/src/endpoints/quit_game.rs:33-39 | SQL addition skips NULL: the result is NULL only when both sides are |
| Records.SqlSum | biogames-api/src/endpoints/quit_game.rs:33-39 | a SQL `sum` is NULL exactly when every entry is NULL (or there are none) |
| Records.SqlSumBounds | biogames-api/src/endpoints/quit_game.rs:33-39 | a sum of entries bounded by lo..hi lies between n·lo and n·hi |
| Records.SqlSumSkipsNull | biogames-api/src/endpoints/quit_game.rs:35 | appending NULL entries leaves a SQL sum unchanged |
| Records.PointsColumn | biogames-api/src/endpoints/quit_game.rs:35 | the column holds each row's points, position by position |
| Records.ElapsedColumn | biogames-api/src/endpoints/quit_game.rs:37-38 | the column holds each row's `submitted_at - started_at`, position by position |
| Records.ChallengesOfGames | biogames-api/src/schema.rs:58 | definition: the foreign key, every challenge's game is stored (part of `Database.Valid`) |
| Records.Database.constructor | biogames-api/src/schema.rs:1-45 | a fresh database has the given cores, no games, no challenges, and satisfies the table invariants |
| ChallengeCore.StampRow | biogames-api/src/endpoints/get_challenge_core.rs:119-124 | only the requested row's `started_at` changes, and only when it was NULL; every other column is kept |
| ChallengeCore.Stamp | biogames-api/src/endpoints/get_challenge_core.rs:119-124 | the update maps every row through the stamp, position by position |
| ChallengeCore.StampIdempotent | biogames-api/src/endpoints/get_challenge_core.rs:121 | fetching a core twice keeps the first start time |
| ChallengeCore.StampTouchesOnlyRequested | biogames-api/src/endpoints/get_challenge_core.rs:119-124 | rows with another id, and rows already started, are untouched |
| ChallengeCore.StampedRowStarted | biogames-api/src/endpoints/get_challenge_core.rs:119-124 | after a fetch the requested row's start is its old start, or `now` if it had none |
| ChallengeCore.StampKeepsTable | biogames-api/src/endpoints/get_challenge_core.rs:119-124 | the update keeps the table ascending and its rows well formed |
| ChallengeCore.StampedRow | biogames-api/src/endpoints/get_challenge_core.rs:119-124 | every row after the update is the stamped version of an old row |
| ChallengeCore.GetChallengeCore | biogames-api/src/endpoints/get_challenge_core.rs:74-136 | 404 for an unknown challenge, 500 on a query or file error, a panic when the stamp fails; only a 200 stamps the row, and the table invariants hold |
| ChallengeCore.UnknownChallengeNotFound | biogames-api/src/endpoints/get_challenge_core.rs:96-99 | an unknown id is not found, and a stamp at any time leaves the table unchanged |
| CheckGameType.GamesOf | biogames-api/src/endpoints/check_game_type.rs:15-19 | the counted games are exactly the user's games of that type |
| CheckGameType.CheckGameType | biogames-api/src/endpoints/check_game_type.rs:10-67 | 500 exactly when one of the three count queries fails; otherwise the three counts |
| CheckGameType.CountsWithinGames | biogames-api/src/endpoints/check_game_type.rs:14-33 | the three counts together never exceed the number of games |
| CheckGameType.OtherGamesNotCounted | biogames-api/src/endpoints/check_game_type.rs:15-19 | a new game of another user or another type changes no count |
| CheckGameType.NewGameCountedOnce | biogames-api/src/endpoints/check_game_type.rs:15-19 | a new game of the user raises its own type's count by exactly one |
| CreateGame.GameType | biogames-api/src/endpoints/create_game.rs:83 | the stored type is the mode as given, or "training" when there is none |
| CreateGame.IsTest | biogames-api/src/endpoints/create_game.rs:82 | definition: a game is a test game exactly for the modes "pretest" and "posttest" (properties in CreateGame.GameSize and CreateGame.PicksFromPool) |
| CreateGame.ChallengesPerGame | biogames-api/src/endpoints/create_game.rs:85 | definition: 50 challenges for a test game, 20 otherwise (bound on the inserted rows in CreateGame.GameSize) |
| CreateGame.MaxScore | biogames-api/src/endpoints/create_game.rs:93 | definition: 5 points per challenge of a full game (never exceeded, by CreateGame.AchievableWithinMax) |
| CreateGame.GameSize | biogames-api/src/endpoints/create_game.rs:82-93 | a new game's challenge rows are exactly the rows inserted for it, at most its size; its max_score is 5 per challenge of a full game, 250 for a test game and 100 otherwise |
| CreateGame.Pool | biogames-api/src/endpoints/create_game.rs:108-126 | a test game draws from the 50 test images, every other game from all remaining cores |
| CreateGame.Picks | biogames-api/src/endpoints/create_game.rs:113-114 | `limit` keeps the first n of the random order, or all of them when fewer |
| CreateGame.DistinctCardinality | biogames-api/src/endpoints/create_game.rs:108-126 | a list without repetitions has as many elements as its set |
| CreateGame.PicksFromPool | biogames-api/src/endpoints/create_game.rs:108-135 | the picked cores are distinct, all from the pool, and as many as the game size and the pool allow |
| CreateGame.NewChallenges | biogames-api/src/endpoints/create_game.rs:131-135 | each inserted challenge gets the next serial id, the game's id and its core, with nothing answered |
| CreateGame.AppendNewKeepsTable | biogames-api/src/endpoints/create_game.rs:131-135 | inserting the new challenges keeps the table ascending and well formed |
| CreateGame.AchievableWithinMax | biogames-api/src/endpoints/create_game.rs:93 | a game's summed points never exceed its stored maximum score |
| CreateGame.CreateGame | biogames-api/src/endpoints/create_game.rs:77-157 | the game row and its challenges are inserted, and afterwards the new game's rows are exactly the inserted ones, at most its size; with no core drawn the game row is deleted again and 500 "No HER2 cores found" returned; a failing statement panics with exactly the earlier writes done |
| CreateGame.InsertChallenges | biogames-api/src/endpoints/create_game.rs:106-135 | the insert adds one row per pick of the shuffled pool, at most the game's size; the game had no rows before, so its rows are exactly the inserted ones; the invariants, including the foreign key, hold |
| CreateGame.FreshGameHasNoRows | biogames-api/src/schema.rs:58 | with the foreign key to `games`, no challenge row carries the next game id |
| CreateGame.AppendNewKeepsKeys | biogames-api/src/schema.rs:58 | rows inserted for a stored game keep the foreign key |
| CurrentChallenge.JoinedOfGame | biogames-api/src/endpoints/get_current_challenge.rs:13-18 | the joined rows are exactly the game's challenges whose core exists, in id order |
| CurrentChallenge.CountAnswered | biogames-api/src/endpoints/get_current_challenge.rs:28-30 | the completed count never exceeds the total; it equals the total exactly when every row has a guess, and is 0 exactly when none has |
| CurrentChallenge.CountAnsweredAppend | biogames-api/src/endpoints/get_current_challenge.rs:28-30 | the count of answered rows splits over concatenation |
| CurrentChallenge.CountIsAnsweredPositions | biogames-api/src/endpoints/get_current_challenge.rs:28-30 | the completed count is the number of rows with a guess |
| CurrentChallenge.FirstUnanswered | biogames-api/src/endpoints/get_current_challenge.rs:32-36 | a returned id belongs to an unanswered challenge of the list |
| CurrentChallenge.GetCurrentChallenge | biogames-api/src/endpoints/get_current_challenge.rs:10-43 | 500 exactly on a query error; otherwise the total is the number of joined rows of the game, completed is CountAnswered of them and the id is their first unanswered one |
| CurrentChallenge.NoneIffAllAnswered | biogames-api/src/endpoints/get_current_challenge.rs:28-36 | there is no current challenge exactly when every challenge is answered |
| CurrentChallenge.FirstUnansweredIsFirst | biogames-api/src/endpoints/get_current_challenge.rs:32-36 | the current challenge is unanswered and every earlier one is answered |
| CurrentChallenge.CurrentIsLowestUnanswered | biogames-api/src/endpoints/get_current_challenge.rs:17-36 | a game with an unanswered challenge has a current challenge, and it has the lowest id among the unanswered ones |
| CurrentChallenge.CompletedIffNoCurrent | biogames-api/src/endpoints/get_current_challenge.rs:38-42 | the reply reports completed == total exactly when it has no current id |
| GetGame.JoinRows | biogames-api/src/endpoints/get_game.rs:16-21 | the joined rows are exactly the game's challenges with an existing core, in id order |
| GetGame.Points | biogames-api/src/endpoints/get_game.rs:49-55 | a guess is scored by the matrix; no guess scores 0 |
| GetGame.CountGuessed | biogames-api/src/endpoints/get_game.rs:38-40 | the count is zero exactly when no row has a guess |
| GetGame.Results | biogames-api/src/endpoints/get_game.rs:57-68 | one result per guessed row and nothing else, each scored by the matrix |
| GetGame.ResultsKeepOrder | biogames-api/src/endpoints/get_game.rs:20 | results keep the rows' ascending challenge-id order |
| GetGame.BucketOf | biogames-api/src/endpoints/get_game.rs:75-93 | a category holds exactly the results whose points fall in it |
| GetGame.Group | biogames-api/src/endpoints/get_game.rs:75-93 | definition: the four categories of the results (their sizes add up to the results, by GetGame.ResponsePartitionsResults) |
| GetGame.GetGame | biogames-api/src/endpoints/get_game.rs:11-110 | 500 exactly on a query error; 400 exactly when no joined row has a guess; the reply names the game and its player, and its categories and total are those of the game's results |
| GetGame.NoRowsIsBadRequest | biogames-api/src/endpoints/get_game.rs:30-33 | a game without challenges is a bad request |
| GetGame.ResultsOfGame | biogames-api/src/endpoints/get_game.rs:16-68 | the results are exactly the game's guessed challenges, ascending, each scored by the matrix |
| GetGame.BucketsDisjoint | biogames-api/src/endpoints/get_game.rs:75-93 | no result is in two categories |
| GetGame.BucketsCover | biogames-api/src/endpoints/get_game.rs:75-93 | results with matrix values fill the four categories exactly |
| GetGame.ResponsePartitionsResults | biogames-api/src/endpoints/get_game.rs:57-101 | the four categories of a response together hold every result once |
| GetGame.TotalPointsBounds | biogames-api/src/endpoints/get_game.rs:70-72 | the total lies between -5 and 5 per result, and is 5 per result exactly when every result is correct |
| GetGame.TotalPoints | biogames-api/src/endpoints/get_game.rs:70-72 | definition: the sum of the results' points (bounded by GetGame.TotalPointsBounds) |
| QuitGame.DropUnanswered | biogames-api/src/endpoints/quit_game.rs:48-54 | the delete removes exactly the game's unanswered challenges and keeps the order |
| QuitGame.QuitGames | biogames-api/src/endpoints/quit_game.rs:33-45 | only the quit game's row changes; it gets the summed points and durations |
| QuitGame.TotalScore | biogames-api/src/endpoints/quit_game.rs:33-35 | definition: the SQL sum of the game's points, NULL when none is recorded (unchanged by the delete, by QuitGame.DropKeepsTotals) |
| QuitGame.TotalTime | biogames-api/src/endpoints/quit_game.rs:35-38 | definition: the SQL sum of the game's answer durations (unchanged by the delete, by QuitGame.DropKeepsTotals) |
| QuitGame.QuitStatus | biogames-api/src/endpoints/quit_game.rs:18-63 | 200 exactly for a found, unscored game whose transaction succeeds; 404 exactly for an unknown game; 500 on a lookup failure; 400 for a game with a score or a time; 500 when the transaction fails on an unscored game |
| QuitGame.QuitGame | biogames-api/src/endpoints/quit_game.rs:13-64 | the update and the delete happen together on 200 and not at all otherwise |
| QuitGame.DropKeepsTable | biogames-api/src/endpoints/quit_game.rs:48-54 | the delete keeps the table ascending and well formed |
| QuitGame.DropIdempotent | biogames-api/src/endpoints/quit_game.rs:48-54 | deleting a second time deletes nothing |
| QuitGame.DropNothing | biogames-api/src/endpoints/quit_game.rs:48-54 | a table without unanswered rows of the game is left as it is |
| QuitGame.OfGameAfterDrop | biogames-api/src/endpoints/quit_game.rs:48-54 | after the delete, the game's challenges are its answered ones |
| QuitGame.AnsweredKeepsPoints | biogames-api/src/endpoints/quit_game.rs:35 | unanswered rows add nothing to the points total |
| QuitGame.AnsweredKeepsTime | biogames-api/src/endpoints/quit_game.rs:37-38 | unanswered rows add nothing to the time total |
| QuitGame.DropKeepsTotals | biogames-api/src/endpoints/quit_game.rs:31-57 | computing the totals before or after the delete gives the same result |
| QuitGame.SecondQuitChangesNothing | biogames-api/src/endpoints/quit_game.rs:26-29 | a second quit is refused with 400, or rewrites exactly what is already there |
| SubmitChallenge.WholeSeconds | biogames-api/src/endpoints/submit_challenge.rs:44 | whole seconds truncated toward zero, for either sign |
| SubmitChallenge.TooEarlyIffUnderFiveThousand | biogames-api/src/endpoints/submit_challenge.rs:44-47 | the five-second gate refuses exactly the spans under 5000 ms |
| SubmitChallenge.Scored | biogames-api/src/endpoints/submit_challenge.rs:50-61 | the row gets the guess, the submission time and the matrix score; all else is kept |
| SubmitChallenge.SubmitStatus | biogames-api/src/endpoints/submit_challenge.rs:24-101 | 200 exactly when the queries succeed, the challenge is found, started at least 5 s ago and unanswered; 500 on a lookup failure; 404 exactly when the join finds no row; 400 when not started or under 5 whole seconds; 500 when the scoring update fails; 400 when already answered |
| SubmitChallenge.FinalScore | biogames-api/src/endpoints/submit_challenge.rs:68-79 | the final score is set exactly when every challenge of the game is scored (corrected rule) |
| SubmitChallenge.AllScored | biogames-api/src/endpoints/submit_challenge.rs:68-69 | definition: the completeness rule the comment states, every challenge of the game has points (the score is set exactly then, by SubmitChallenge.FinalScore) |
| SubmitChallenge.FinalTime | biogames-api/src/endpoints/submit_challenge.rs:80-88 | the time is set only when every challenge of the game is scored |
| SubmitChallenge.Completes | biogames-api/src/endpoints/submit_challenge.rs:68-79 | definition: the completeness test of the chosen rule, the written one or every challenge scored |
| SubmitChallenge.Finalised | biogames-api/src/endpoints/submit_challenge.rs:70-89 | only the game's score and time change; the score is the sum of the points exactly when the game is complete under the chosen rule, and a set time is the summed durations of a complete game |
| SubmitChallenge.FinalTimeWithScore | biogames-api/src/endpoints/submit_challenge.rs:70-89 | over well-formed rows, the time is set exactly when the score is |
| SubmitChallenge.FinalScoreBounds | biogames-api/src/endpoints/submit_challenge.rs:72-75 | a final score lies between -5 and 5 per challenge |
| SubmitChallenge.RecordGuess | biogames-api/src/endpoints/submit_challenge.rs:53-61 | the scoring update replaces the row and changes nothing else |
| SubmitChallenge.FinaliseGame | biogames-api/src/endpoints/submit_challenge.rs:70-96 | the game row becomes Finalised under the given rule (AsWritten is the SQL as it stands) and nothing else changes |
| SubmitChallenge.SubmitChallenge | biogames-api/src/endpoints/submit_challenge.rs:18-103 | the status is SubmitStatus; only a 200 writes; it records the guess and finalises the game under the given rule (AsWritten is the handler as it stands) unless that update fails, which is only logged |
| SubmitChallenge.ReplaceKeepsRows | biogames-api/src/endpoints/submit_challenge.rs:53-61 | the scoring update keeps the table ascending and well formed |
| SubmitChallenge.ScoringTouchesOneRow | biogames-api/src/endpoints/submit_challenge.rs:53-61 | only the submitted row changes, and it is found afterwards |
| SubmitChallenge.SecondSubmissionRejected | biogames-api/src/endpoints/submit_challenge.rs:55-66 | once a submission succeeds, submitting the same challenge again is refused with 400 |
| SubmitChallenge.MinCoalesced | biogames-api/src/endpoints/submit_challenge.rs:79 | the minimum of `coalesce(points, -1)` bounds every entry and is attained |
| SubmitChallenge.FinalisesAsWritten | biogames-api/src/endpoints/submit_challenge.rs:76-79 | definition: the written test, a non-empty game whose minimum coalesced points is not -1 (differs from SubmitChallenge.AllScored, by the two counterexample lemmas) |
| SubmitChallenge.FinalScoreAsWritten | biogames-api/src/endpoints/submit_challenge.rs:70-79 | as written, the score is set exactly when the written completeness test passes |
| SubmitChallenge.FinalTimeAsWritten | biogames-api/src/endpoints/submit_challenge.rs:80-88 | as written, the time is set only when the written completeness test passes |
| SubmitChallenge.FinalTimeAsWrittenWithScore | biogames-api/src/endpoints/submit_challenge.rs:70-89 | as written too, over well-formed rows the time is set exactly when the score is |
| SubmitChallenge.AsWrittenFinalisesUnfinishedGame | biogames-api/src/endpoints/submit_challenge.rs:76-79 | as written, a game with an unanswered challenge is finalised |
| SubmitChallenge.AsWrittenMissesFinishedGame | biogames-api/src/endpoints/submit_challenge.rs:76-79 | as written, a finished game with a -1 answer is never finalised |
| SubmitChallenge.AsWrittenRightWithoutPenalties | biogames-api/src/endpoints/submit_challenge.rs:76-79 | when no recorded score is negative, the written test agrees with the intended one |
| SubmitChallenge.RulesAgreeWithoutPenalties | biogames-api/src/endpoints/submit_challenge.rs:70-89 | on a game without penalties, finalisation as written and as intended give the same game row |
| Validation.ReplaceNewlines | biogames-api/src/models.rs:101 | the result has no newline, and text without one is unchanged |
| Validation.ReplaceNewlinesAppend | biogames-api/src/models.rs:101 | replacing newlines works piece by piece |
| Validation.ReplaceAround | biogames-api/src/models.rs:101 | newline-free text around the error list is kept as it is |
| Validation.ValidationMessageShape | biogames-api/src/models.rs:101 | the body is the prefix, the error list on one line, then "]" |
| Validation.Respond | biogames-api/src/models.rs:97-107 | both kinds of refusal are answered with 400; a validation error's body has no newline |
| Validation.FromRequest | biogames-api/src/models.rs:81-85 | a request reaches the handler exactly when it parses and passes its checks |
| Validation.ValidGuess | biogames-api/src/models.rs:172 | definition: a guess is accepted exactly from 0 to 3 |
| Validation.ValidCreateGame | biogames-api/src/models.rs:112 | definition: a user id is accepted with 1 to 32 characters |
| Validation.ValidRegisterUser | biogames-api/src/models.rs:203 | definition: a username is accepted with 1 to 32 characters (the client agrees, by FormChecks.UsernameCheckMatchesServer) |
| Validation.RefusalIsBadRequest | biogames-api/src/models.rs:81-107 | every refused request is answered with 400 |
| CheckUsername.CheckUsername | biogames-api/src/endpoints/check_username.rs:27-52 | 200 unless the query fails; on 200, `has_username` is whether a username is registered and the username is returned |
| CheckUsername.HasUsernameIffReturned | biogames-api/src/endpoints/check_username.rs:36-43 | on success, `has_username` holds exactly when a username is returned |
| RegisterWithUsername.Register | biogames-api/src/endpoints/register_with_username.rs:57-122 | only a successful reply changes the table, and then exactly by giving the id this username; every error is 500 |
| RegisterWithUsername.RegisterCases | biogames-api/src/endpoints/register_with_username.rs:67-115 | an id with a username is refused and reported with it; an id without one is given the username; an unknown id is created with it |
| RegisterWithUsername.NeverOverwritten | biogames-api/src/endpoints/register_with_username.rs:67-78 | a registered username is never overwritten, whatever fails |
| RegisterWithUsername.SecondRegistrationKeepsFirst | biogames-api/src/endpoints/register_with_username.rs:67-78 | registering again keeps the first username and changes nothing |
| RegisterWithUsername.RegisterWithUsername | biogames-api/src/endpoints/register_with_username.rs:13-20 | an invalid request is refused with 400 and changes nothing; a valid one does what Register says |
| GenerateUserId.CandidateFormat | biogames-api/src/endpoints/generate_user_id.rs:57-79 | a candidate is "UCLA_", a dictionary word and two digits, and the digits can be read back |
| GenerateUserId.FirstStop | biogames-api/src/endpoints/generate_user_id.rs:57-79 | the loop stops at the first draw whose candidate is free or whose check fails |
| GenerateUserId.Generate | biogames-api/src/endpoints/generate_user_id.rs:40-220 | the request is refused with 400 exactly when its email fails the format check; only a success changes the table, adding one id |
| GenerateUserId.ForeignDomainRefused | biogames-api/src/endpoints/generate_user_id.rs:48-54 | an address outside the two domains gets `success: false` and no id, and nothing changes |
| GenerateUserId.GenerateOutcome | biogames-api/src/endpoints/generate_user_id.rs:40-220 | a success returns the candidate of the stopping draw, which is "UCLA_", a dictionary word and two digits and was not registered, and adds exactly that id; every failure leaves the table as it was |
| GenerateUserId.PickId | biogames-api/src/endpoints/generate_user_id.rs:57-79 | the loop returns the candidate of the first stopping draw |
| GenerateUserId.GenerateUserId | biogames-api/src/endpoints/generate_user_id.rs:40-220 | the endpoint's reply and new table are those of Generate |
| MigrateUsers.EffectOf | biogames-api/migrate_users.rs:61-104 | blank and unreadable lines are ignored; a present id is skipped; an absent non-blank id is migrated |
| MigrateUsers.Apply | biogames-api/migrate_users.rs:61-104 | definition: one pass of the loop applies a line's effect to the table and counters (properties in MigrateUsers.CountsBounded and MigrateUsers.GrowsByMigrated) |
| MigrateUsers.Run | biogames-api/migrate_users.rs:61-104 | definition: the loop over all lines (splits over concatenation, by MigrateUsers.RunAppend) |
| MigrateUsers.RunAppend | biogames-api/migrate_users.rs:61-104 | the loop over two parts is the loop over the first, then the second |
| MigrateUsers.CountsBounded | biogames-api/migrate_users.rs:57-104 | migrated plus skipped never exceeds the non-blank lines |
| MigrateUsers.KeepsExisting | biogames-api/migrate_users.rs:61-104 | existing rows are never modified, and each added row has no username |
| MigrateUsers.GrowsByMigrated | biogames-api/migrate_users.rs:61-104 | the table grows by exactly the number migrated |
| MigrateUsers.RepeatedIdSkipped | biogames-api/migrate_users.rs:61-104 | an id repeated in the file is inserted once and skipped afterwards |
| MigrateUsers.MigrateUsers | biogames-api/migrate_users.rs:44-109 | an unopenable file changes nothing; otherwise the table and counters are those of the loop over all lines |
| Users.Registry.constructor | biogames-api/src/models.rs:56-62 | the registry holds the given table |
| Auth.Get | biogames-client/src/Auth.ts:10-36 | a getter returns the stored value, or nothing when the key is absent |
| Auth.Cleared | biogames-client/src/Auth.ts:43-48 | clearing removes exactly the four session keys and keeps everything else |
| Auth.GetAfterSet | biogames-client/src/Auth.ts:6-36 | a key reads back the value just written, and other keys are unaffected |
| Auth.AdminIsAuthenticated | biogames-client/src/Auth.ts:38-52 | an administrator is authenticated, and is exactly an authenticated id ending in "admin" |
| Auth.ClearedSession | biogames-client/src/Auth.ts:43-52 | after clearing, every getter reads nothing and nobody is authenticated; clearing is idempotent |
| Auth.SessionStore.SetUserId | biogames-client/src/Auth.ts:6-8 | only the user id key changes |
| Auth.SessionStore.SetUsername | biogames-client/src/Auth.ts:14-16 | only the username key changes |
| Auth.SessionStore.SetEmail | biogames-client/src/Auth.ts:22-24 | only the email key changes |
| Auth.SessionStore.SetGameMode | biogames-client/src/Auth.ts:30-32 | only the game mode key changes |
| Auth.SessionStore.ClearSession | biogames-client/src/Auth.ts:43-48 | the storage becomes its cleared version |
| Auth.SessionStore.IsAuthenticated | biogames-client/src/Auth.ts:50-52 | true exactly when a user id is stored |
| Auth.SessionStore.IsAdmin | biogames-client/src/Auth.ts:38-41 | true exactly when a stored user id ends in "admin" |
| Humanize.FloorRem | biogames-client/src/Humanize.ts:3 | `floor((t / unit) % m)` lies in 0..m-1 for t ≥ 0 and in -m..0 for t < 0 |
| Humanize.HumanizeTime | biogames-client/src/Humanize.ts:1-19 | the text always ends in the seconds segment "…s" |
| Humanize.PartsOfDuration | biogames-client/src/Humanize.ts:2-12 | for t ≥ 0, hours, minutes and seconds make up t cut down to whole seconds |
| Humanize.NumberLetters | biogames-client/src/Humanize.ts:6-13 | a rendered number holds none of the unit letters |
| Humanize.Segments | biogames-client/src/Humanize.ts:5-10 | the hour segment appears exactly when hours > 0, the minute one exactly when minutes > 0, hours first |
| Leaderboard.FormatScore | biogames-client/src/Leaderboard.tsx:67-79 | 5, -1, -2 and ≤ -3 get their labels; every other score is shown as a number |
| Leaderboard.ScoresAreLabelled | biogames-client/src/Leaderboard.tsx:67-79 | every score the matrix can give has a label |
| Leaderboard.OtherScoresShownRaw | biogames-client/src/Leaderboard.tsx:76-77 | a number outside the matrix's values is never shown as a label |
| Leaderboard.ScoreColor | biogames-client/src/Leaderboard.tsx:85-95 | each colour is chosen exactly for its score; red for everything else |
| Leaderboard.ColorMatchesLabel | biogames-client/src/Leaderboard.tsx:67-95 | a severe error is red, and "Correct" exactly when green |
| Leaderboard.Visible | biogames-client/src/Leaderboard.tsx:31-32 | filtering never adds entries |
| Leaderboard.VisibleMembers | biogames-client/src/Leaderboard.tsx:31-32 | exactly the non-administrators' entries are shown |
| Leaderboard.VisibleAppend | biogames-client/src/Leaderboard.tsx:31-32 | the filter works piece by piece, so the server's order is kept |
| Leaderboard.DisplayName | biogames-client/src/Leaderboard.tsx:34 | generated "UCLA_" ids are shown as "Anonymous", chosen names as they are |
| Leaderboard.RowsFrom | biogames-client/src/Leaderboard.tsx:33-54 | one row per shown entry, with its name and its rank's class |
| Leaderboard.Rows | biogames-client/src/Leaderboard.tsx:31-54 | definition: the rows of the entries that are shown, ranked from the first (properties in Leaderboard.VisibleMembers and Leaderboard.Podium) |
| Leaderboard.Podium | biogames-client/src/Leaderboard.tsx:37-46 | the first three shown entries are gold, silver and bronze; the rest are striped |
| ZoomableImage.NextInRange | biogames-client/src/ZoomableImage.tsx:18-80 | no event takes the zoom outside 1.0..maximum |
| ZoomableImage.RunInRange | biogames-client/src/ZoomableImage.tsx:18-80 | the zoom stays in range over any sequence of events |
| ZoomableImage.Next | biogames-client/src/ZoomableImage.tsx:18-80 | mouse events never change the zoom; reset and a new image return to 1.0 and the origin; only a press starts a drag, and a release ends it |
| ZoomableImage.Run | biogames-client/src/ZoomableImage.tsx:18-80 | definition: the state after a sequence of events (kept in range, by ZoomableImage.RunInRange) |
| ZoomableImage.ZoomOutUndoesZoomIn | biogames-client/src/ZoomableImage.tsx:23-35 | below the maximum zooming out undoes zooming in; at the maximum zooming in does nothing |
| ZoomableImage.ZoomOutToOneRecentres | biogames-client/src/ZoomableImage.tsx:27-35 | zooming out to 1.0 re-centres the image; at 1.0 it does nothing |
| ZoomableImage.DragFollowsMouse | biogames-client/src/ZoomableImage.tsx:46-59 | while dragging, the image moves by exactly the mouse's displacement |
| ZoomableImage.NoDragUnzoomed | biogames-client/src/ZoomableImage.tsx:46-59 | at 1.0 pressing and moving the mouse changes nothing |
| ZoomableImage.Image.constructor | biogames-client/src/ZoomableImage.tsx:10-16 | the component starts at 1.0, centred, not dragging |
| ZoomableImage.Image.HandleZoomIn | biogames-client/src/ZoomableImage.tsx:23-25 | the state becomes Next(old, ZoomIn) and stays in range |
| ZoomableImage.Image.HandleZoomOut | biogames-client/src/ZoomableImage.tsx:27-35 | the state becomes Next(old, ZoomOut) and stays in range |
| ZoomableImage.Image.HandleWheel | biogames-client/src/ZoomableImage.tsx:37-44 | the state becomes Next(old, Wheel) and stays in range |
| ZoomableImage.Image.HandleMouseDown | biogames-client/src/ZoomableImage.tsx:46-51 | the state becomes Next(old, MouseDown) and stays in range |
| ZoomableImage.Image.HandleMouseMove | biogames-client/src/ZoomableImage.tsx:53-59 | the state becomes Next(old, MouseMove) and stays in range |
| ZoomableImage.Image.HandleMouseUp | biogames-client/src/ZoomableImage.tsx:61-80 | the state becomes Next(old, MouseUp) and stays in range |
| ZoomableImage.Image.HandleReset | biogames-client/src/ZoomableImage.tsx:65-68 | the state becomes Next(old, Reset) and stays in range |
| ZoomableImage.Image.HandleSrcChanged | biogames-client/src/ZoomableImage.tsx:18-21 | the state becomes Next(old, SrcChanged) and stays in range |
| GamePage.CreateUrlSize | biogames-client/src/GamePage.tsx:127 | only a pretest asks for fifty challenges |
| GamePage.CreateRequest | biogames-client/src/GamePage.tsx:118-124 | the body carries the user id, and the previewed core exactly when it is truthy |
| GamePage.ConflictResolution | biogames-client/src/GamePage.tsx:115-177 | a 400 naming an open game leads to one quit, and one retry exactly when the quit succeeds; otherwise no further request; a rejected request, or a rejected read of a failed quit's text, ends the flow with that error's message and sends nothing further |
| GamePage.CreateFlow | biogames-client/src/GamePage.tsx:115-177 | definition: `createGameAsync` as a function of the three awaited requests, any of which can reject (its paths are stated by GamePage.ConflictResolution) |
| GamePage.ErrorText | biogames-client/src/GamePage.tsx:159 | definition: the message, else the error, else the rendered JSON; "Server <status>" for a body that is not JSON |
| GamePage.CreateGameAsync | biogames-client/src/GamePage.tsx:115-163 | the method's outcome and request counts are those of CreateFlow |
| GamePage.PathsByMode | biogames-client/src/GamePage.tsx:66 | a challenge path extends its game path; only training paths lack a mode prefix |
| GamePage.CompletionRoute | biogames-client/src/GamePage.tsx:404-412 | a pretest goes to the menu and switches to training; a posttest goes to the menu; other games to their results |
| GamePage.QuitRoute | biogames-client/src/GamePage.tsx:292-298 | a game quit before any answer goes home; the mode switches exactly when cached queries are dropped |
| GamePage.ResultsOnlyForTraining | biogames-client/src/GamePage.tsx:292-298 | results pages are reached only for games that are not tests |
| GamePage.ImageUrl | biogames-client/src/GamePage.tsx:425-451 | no image without a current challenge; the preview exactly when its condition holds; the standard URL otherwise |
| GamePage.PreviewIsApi | biogames-client/src/GamePage.tsx:446 | the preview URL lies under /api/ |
| GamePage.StandardIsNotApi | biogames-client/src/GamePage.tsx:435 | the standard URL does not |
| GamePage.PreviewIffCondition | biogames-client/src/GamePage.tsx:425-451 | the shown URL is a preview exactly when the preview condition holds |
| GamePage.Page.constructor | biogames-client/src/GamePage.tsx:186-242 | no active game, nothing attempted, buttons disabled, no timer |
| GamePage.Page.GameIdEffect | biogames-client/src/GamePage.tsx:186-209 | a URL game id is adopted; otherwise a game is created at most once per visit, and only for a known user |
| GamePage.Page.CreationSucceeded | biogames-client/src/GamePage.tsx:166-173 | the created game becomes the active one |
| GamePage.Page.ChallengeChanged | biogames-client/src/GamePage.tsx:226-242 | a new challenge disables the buttons and starts its five-second timer |
| GamePage.Page.TimerFired | biogames-client/src/GamePage.tsx:226-242 | only the pending challenge's timer enables the buttons |
| FormChecks.CheckField | biogames-client/src/PreTestPlayForm.tsx:29-39 | no error exactly for 1 to 32 characters; "Required" when empty, the length message when too long |
| FormChecks.UsernameCheckMatchesServer | biogames-client/src/PreTestPlayForm.tsx:35-39 | the client's username check accepts exactly what the server's accepts |
| FormChecks.ShortUserIdPassesClientOnly | biogames-client/src/PreTestPlayForm.tsx:29-33 | a four-character id passes the client check and fails the server's |
| PreTestPlayForm.Validate | biogames-client/src/PreTestPlayForm.tsx:26-42 | no errors exactly when both fields have 1 to 32 characters |
| PreTestPlayForm.Submit | biogames-client/src/PreTestPlayForm.tsx:44-122 | a field error stores nothing; a navigation goes to the pretest with the mode stored |
| PreTestPlayForm.InvalidIdStops | biogames-client/src/PreTestPlayForm.tsx:57-61 | an id the server rejects stops the form with "Invalid user ID" |
| PreTestPlayForm.ExistingUsernameSkipsRegistration | biogames-client/src/PreTestPlayForm.tsx:72-83 | a user with a username starts the pretest without registering |
| PreTestPlayForm.RegistrationOutcome | biogames-client/src/PreTestPlayForm.tsx:86-115 | a failed registration is an error on the username; a success stores the returned name and starts the pretest |
| PreTestPlayForm.ExceptionsReported | biogames-client/src/PreTestPlayForm.tsx:116-118 | an exception at any reached request ends in "Error processing request" with nothing stored |
| PreTestPlayForm.SubmitForm | biogames-client/src/PreTestPlayForm.tsx:44-122 | the method's outcome and storage are those of Submit |
| PlayForm.InitialUsername | biogames-client/src/PlayForm.tsx:17 | the form starts with the stored username, or empty |
| PlayForm.PlayDisabled | biogames-client/src/PlayForm.tsx:106 | definition: the play button is disabled for the modes "finished" and "posttest" |
| PlayForm.Form.Validate | biogames-client/src/PlayForm.tsx:21-78 | the username's error is that of the shared field check; an accepted username switches the form to training |
| PlayForm.Form.Submit | biogames-client/src/PlayForm.tsx:80-86 | the username and mode are stored and the game opens in that mode |
| PlayForm.Form.Play | biogames-client/src/PlayForm.tsx:21-106 | an accepted username starts training with it stored, and Play is enabled; a refused one changes nothing |
| IntroductionPage.ClientDomainsIncludeServers | biogames-client/src/IntroductionPage.tsx:14 | every address the server accepts passes the client check, but an @mail.huji.ac.il address passes only the client's |
| IntroductionPage.EmailIsValid | biogames-client/src/IntroductionPage.tsx:14 | definition: the three domains the client admits (compared with the server's two by IntroductionPage.ClientDomainsIncludeServers) |
| IntroductionPage.RegisterEnabled | biogames-client/src/IntroductionPage.tsx:110 | definition: the button is enabled when idle, agreed and with a valid address |
| IntroductionPage.ErrorOf | biogames-client/src/IntroductionPage.tsx:38-59 | no error exactly for a successful JSON reply; a failed reply reports its message, or "Failed to register" (corrected) |
| IntroductionPage.ErrorAsWritten | biogames-client/src/IntroductionPage.tsx:38-59 | as written: no error exactly for a successful JSON reply; a failed JSON reply shows the second read's exception |
| IntroductionPage.ErrorUnder | biogames-client/src/IntroductionPage.tsx:38-59 | definition: the error under the chosen reading, as written or as intended |
| IntroductionPage.ServerMessageLostAsWritten | biogames-client/src/IntroductionPage.tsx:38-43 | as written, a failed reply shows the second read's exception instead of the server's message |
| IntroductionPage.AsWrittenAgreesElsewhere | biogames-client/src/IntroductionPage.tsx:38-59 | outside failed JSON replies, the written and the corrected handlers agree |
| IntroductionPage.Page.HandleSubmit | biogames-client/src/IntroductionPage.tsx:16-63 | an invalid address is refused without a request; otherwise the error is that of the reply under the given reading (AsWritten is the page as it stands), none exactly for a successful JSON reply; a success stores the id and address and schedules the menu; any error stores nothing |
| TestRegisterForm.InitialEmail | biogames-client/src/TestRegisterForm.tsx:12-14 | the form starts with the stored address, or the fixed default |
| TestRegisterForm.Validate | biogames-client/src/TestRegisterForm.tsx:18-28 | no error exactly for a non-empty address containing '@' |
| TestRegisterForm.Submit | biogames-client/src/TestRegisterForm.tsx:30-66 | a field error stores nothing |
| TestRegisterForm.SubmitOutcomes | biogames-client/src/TestRegisterForm.tsx:30-66 | a success stores the address and the returned id as username and shows it; a failure shows the server's text; an exception is reported |
| TestRegisterForm.SubmitForm | biogames-client/src/TestRegisterForm.tsx:30-66 | the method's outcome and storage are those of Submit |

## Left out

- Database connections, HTTP routing, CORS, logging and tracing are left out. So are response headers, image streaming, caching and the client's fetch plumbing. The API base URL is dropped from every client URL.
- Query failures are modelled as boolean parameters. Nothing says which failure a real database would produce.
- User ids are taken to be unique in the registered-users table: an insert of a present id fails.
- The `seconds` field of a game result is a floating-point number, so `GetGame.Results` leaves it out.
- `time_taken_ms` is a floor over an interval sum. The model sums integer milliseconds, which is the same value for integer inputs.
- SQL `sum` over `i32` points cannot overflow here (at most 50 · 5), so the unbounded integers do not matter. The client's JavaScript numbers are modelled as integers.
- Humanize.HumanizeTime: only `include_ms = false` is modelled. The other branch formats a float with `toPrecision(4)`, and the leaderboard uses it for the time column. The leaderboard rows therefore carry no time text.
- ZoomableImage: zoom is counted in half-steps of 0.5. Only the default maximum of 4.0 is modelled. Pixel offsets are integers.
- CreateGame.CreateGame: the handler reads `body.username` while the request type declares `user_id`; the model stores the validated request's user id. `initial_her2_core_id` is accepted but not used by the handler, and so not by the model.
- `order by random()` is a parameter (`order`, any permutation of the pool). The id generator's word and digit choices are also a parameter (`draws`). Neither models the random distribution.
- GenerateUserId.Generate: the loop is modelled on a sequence of draws that contains a stopping one (`Terminates`). A run that never stops is outside the model.
- The email-format check of the user-id request (`validator`'s email rule) is a parameter, `emailValid`. The library's rendering of validation errors is a parameter, `display`.
- The email hash endpoint, username validation, preview core id, leaderboard query, analytics and the core image endpoint are not part of this model. Neither are the mailer and the configuration.
- React rendering, query caching, the prefetch and ping effects and the "Back to Menu & Retry" unmount are left out. The five-second navigation delay is kept only as the scheduled path.
- String lengths are counted in code points. JavaScript counts UTF-16 units and Rust's `validator` counts characters; these agree except for characters outside the Basic Multilingual Plane.
- SubmitChallenge.SubmitChallenge and SubmitChallenge.FinaliseGame take the completeness rule as a parameter: `AsWritten` is the handler's SQL as it stands, `Intended` the corrected rule. The two agree on games without penalties (SubmitChallenge.RulesAgreeWithoutPenalties).
- IntroductionPage.Page.HandleSubmit takes the reading of a failed reply as a parameter: `AsWritten` is the page as it stands, `Intended` the corrected reading.
- GamePage.ErrorText: a body that is not JSON has already been consumed by the failed parse, so the shown text is "Server <status>". The model keeps this as written.

## Findings

| source | as written | input that shows it | evidently intended | confidence | as-written member | corrected member |
|---|---|---|---|---|---|---|
| biogames-api/src/endpoints/submit_challenge.rs:76-79 | a game is finalised when `min(coalesce(points, -1)) != -1`, so an unanswered challenge (NULL) and a real -1 answer both read as -1 | a game scored [-2, unanswered] is finalised with score -2; a finished game scored [5, -1] is never finalised | finalise exactly when every challenge of the game has points | high (not executed) | SubmitChallenge.AsWrittenFinalisesUnfinishedGame | SubmitChallenge.FinalScore |
| biogames-client/src/IntroductionPage.tsx:38-43 | on a failed reply the body is read a second time with `response.json()`, which throws because the body was already read; the message shown is that exception's | any non-2xx reply with a JSON body, such as a gateway's 502 `{"message": "Bad gateway"}`, shows the "body already used" error instead of its message; this server itself never sends one (its user-id replies are all 200, and its only 400 is a text body that already fails the first read) | show `data.message`, or "Failed to register" when it is empty | high (not executed) | IntroductionPage.ServerMessageLostAsWritten | IntroductionPage.ErrorOf |
