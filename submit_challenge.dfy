/**
 * `POST /challenges/:id/submit`: score one guess. The challenge must have
 * been started at least five whole seconds ago and not yet answered; it is
 * then scored once with the confusion matrix, and the game's final score and
 * time are recomputed from all of its challenges.
 */
module SubmitChallenge {
  import opened Wrappers
  import opened Records
  import Scoring

  /** The least number of whole seconds between fetching a core and answering it. */
  const MinAnswerSeconds := 5

  /** Whole seconds in a span of milliseconds, truncated toward zero as chrono's `num_seconds` does. */
  function WholeSeconds(ms: int): (s: int)
    ensures ms >= 0 ==> 0 <= s * 1000 <= ms < s * 1000 + 1000
    ensures ms < 0 ==> s <= 0 && s * 1000 - 1000 < ms <= s * 1000
  {
    if ms >= 0 then ms / 1000 else -((-ms) / 1000)
  }

  /** The five-second gate compares whole seconds, which is the same as comparing against 5000 ms. */
  lemma TooEarlyIffUnderFiveThousand(ms: int)
    ensures WholeSeconds(ms) < MinAnswerSeconds <==> ms < 5000
  {
  }

  /** The challenge row after a guess at `now`, scored against the core's level `truth`. */
  function Scored(c: Challenge, guess: int, truth: int, now: int): (r: Challenge)
    ensures r.id == c.id && r.gameId == c.gameId && r.coreId == c.coreId && r.startedAt == c.startedAt
    ensures r.guess == Some(guess) && r.submittedAt == Some(now)
    ensures r.points == Some(Scoring.GetScore(guess, truth))
  {
    c.(guess := Some(guess), submittedAt := Some(now), points := Some(Scoring.GetScore(guess, truth)))
  }

  /** The join of the challenge with its game and its core finds a row. */
  predicate JoinFinds(cs: seq<Challenge>, games: map<int, Game>, cores: map<int, Her2Core>, challengeId: int) {
    Find(cs, challengeId).Some? && Find(cs, challengeId).value.gameId in games && Find(cs, challengeId).value.coreId in cores
  }

  /** The join finds the challenge, it was started at least 5000 ms before `now`, and it has no guess yet. */
  predicate Accepts(cs: seq<Challenge>, games: map<int, Game>, cores: map<int, Her2Core>, challengeId: int, now: int) {
    && JoinFinds(cs, games, cores, challengeId)
    && var c := Find(cs, challengeId).value;
    && c.startedAt.Some? && now - c.startedAt.value >= 5000
    && c.guess.None?
  }

  /** The status of a submission. `lookupFails` and `updateFails` are failures of the lookup query and of
      the scoring update; a challenge whose game or core is missing is not found by the join. */
  function SubmitStatus(cs: seq<Challenge>, games: map<int, Game>, cores: map<int, Her2Core>,
                        challengeId: int, now: int, lookupFails: bool, updateFails: bool): (status: int)
    ensures status == StatusOk <==> !lookupFails && !updateFails && Accepts(cs, games, cores, challengeId, now)
    ensures status == StatusNotFound <==> !lookupFails && !JoinFinds(cs, games, cores, challengeId)
    ensures lookupFails ==> status == StatusServerError
    ensures JoinFinds(cs, games, cores, challengeId) && !lookupFails ==>
      var c := Find(cs, challengeId).value;
      && (c.startedAt.None? ==> status == StatusBadRequest)
      && (c.startedAt.Some? && WholeSeconds(now - c.startedAt.value) < MinAnswerSeconds ==> status == StatusBadRequest)
      && (c.startedAt.Some? && now - c.startedAt.value >= 5000 && updateFails ==> status == StatusServerError)
      && (c.startedAt.Some? && now - c.startedAt.value >= 5000 && !updateFails && c.guess.Some? ==> status == StatusBadRequest)
    ensures status in {StatusOk, StatusBadRequest, StatusNotFound, StatusServerError}
  {
    TooEarlyIffUnderFiveThousand(if Find(cs, challengeId).Some? && Find(cs, challengeId).value.startedAt.Some?
      then now - Find(cs, challengeId).value.startedAt.value else 0);
    var found := Find(cs, challengeId);
    if lookupFails then StatusServerError
    else if found.None? || found.value.gameId !in games || found.value.coreId !in cores then StatusNotFound
    else if found.value.startedAt.None? then StatusBadRequest
    else if WholeSeconds(now - found.value.startedAt.value) < MinAnswerSeconds then StatusBadRequest
    else if updateFails then StatusServerError
    else if found.value.guess.Some? then StatusBadRequest
    else StatusOk
  }

  /** Every challenge of the game has points (the game has at least one challenge). */
  predicate AllScored(gcs: seq<Challenge>) {
    |gcs| > 0 && forall i :: 0 <= i < |gcs| ==> gcs[i].points.Some?
  }

  /** The game's final score: the sum of its points once every challenge is scored, NULL before. */
  function FinalScore(gcs: seq<Challenge>): (r: Option<int>)
    ensures r.Some? <==> AllScored(gcs)
  {
    if AllScored(gcs) then
      assert PointsColumn(gcs)[0].Some?;
      SqlSum(PointsColumn(gcs))
    else None
  }

  /** The game's time: the summed answer durations once every challenge is scored, NULL before. */
  function FinalTime(gcs: seq<Challenge>): (r: Option<int>)
    ensures r.Some? ==> AllScored(gcs)
  {
    if AllScored(gcs) then SqlSum(ElapsedColumn(gcs)) else None
  }

  /** Which completeness test finalisation applies: the handler's SQL as written, or the rule its
      comment states (every challenge submitted). */
  datatype Rule = AsWritten | Intended

  /** The game counts as complete under `rule`. */
  predicate Completes(gcs: seq<Challenge>, rule: Rule) {
    if rule.AsWritten? then FinalisesAsWritten(gcs) else AllScored(gcs)
  }

  /** The game row after finalisation from its challenges `gcs`: only the score and the time change;
      the score is the sum of the points exactly when the game is complete under `rule`, and the time,
      when set, is the summed answer durations of a complete game. */
  function Finalised(g: Game, gcs: seq<Challenge>, rule: Rule): (r: Game)
    ensures r == g.(score := r.score, timeTakenMs := r.timeTakenMs)
    ensures r.score.Some? <==> Completes(gcs, rule)
    ensures r.score.Some? ==> r.score == SqlSum(PointsColumn(gcs))
    ensures r.timeTakenMs.Some? ==> Completes(gcs, rule) && r.timeTakenMs == SqlSum(ElapsedColumn(gcs))
  {
    if rule.AsWritten? then g.(score := FinalScoreAsWritten(gcs), timeTakenMs := FinalTimeAsWritten(gcs))
    else g.(score := FinalScore(gcs), timeTakenMs := FinalTime(gcs))
  }

  /** Over well-formed rows the time is set exactly when the score is. */
  lemma FinalTimeWithScore(gcs: seq<Challenge>)
    requires forall i :: 0 <= i < |gcs| ==> WellFormed(gcs[i])
    ensures FinalTime(gcs).Some? <==> FinalScore(gcs).Some?
  {
    if AllScored(gcs) {
      assert Elapsed(gcs[0]).Some?;
      assert ElapsedColumn(gcs)[0].Some?;
    }
  }

  /** A final score is between -5 and 5 points per challenge. */
  lemma FinalScoreBounds(gcs: seq<Challenge>)
    requires forall i :: 0 <= i < |gcs| ==> WellFormed(gcs[i])
    ensures FinalScore(gcs).Some? ==> -5 * |gcs| <= FinalScore(gcs).value <= 5 * |gcs|
  {
    SqlSumBounds(PointsColumn(gcs), -5, 5);
  }

  /** The scoring update: the row of `c` becomes `s`, which keeps its id and its game. */
  method RecordGuess(db: Database, c: Challenge, s: Challenge)
    requires db.Valid() && c in db.challenges && s.id == c.id && s.gameId == c.gameId && WellFormed(s)
    modifies db`challenges
    ensures db.Valid()
    ensures db.challenges == Replace(old(db.challenges), s)
    ensures db.games == old(db.games) && db.cores == old(db.cores)
    ensures db.nextGameId == old(db.nextGameId) && db.nextChallengeId == old(db.nextChallengeId)
  {
    ghost var i :| 0 <= i < |db.challenges| && db.challenges[i] == c;
    ReplaceKeepsRows(db.challenges, i, s, db.nextChallengeId);
    db.challenges := Replace(db.challenges, s);
  }

  /** The finalisation update: the game's score and time are recomputed from its challenges. */
  method FinaliseGame(db: Database, gameId: int, rule: Rule)
    requires db.Valid() && gameId in db.games
    modifies db`games
    ensures db.Valid()
    ensures db.games == old(db.games)[gameId := Finalised(old(db.games)[gameId], OfGame(db.challenges, gameId), rule)]
    ensures db.challenges == old(db.challenges) && db.cores == old(db.cores)
    ensures db.nextGameId == old(db.nextGameId) && db.nextChallengeId == old(db.nextChallengeId)
  {
    db.games := db.games[gameId := Finalised(db.games[gameId], OfGame(db.challenges, gameId), rule)];
  }

  /** The submission handler. `now` is the server clock; `finalizeFails` is a failure of the game update,
      which the handler only logs; `rule` is the completeness test of that update (`AsWritten` is the
      handler as it stands). */
  method SubmitChallenge(db: Database, challengeId: int, guess: int, now: int,
                         lookupFails: bool, updateFails: bool, finalizeFails: bool, rule: Rule) returns (outcome: Outcome)
    requires db.Valid()
    modifies db
    ensures db.Valid()
    ensures db.cores == old(db.cores) && db.nextGameId == old(db.nextGameId) && db.nextChallengeId == old(db.nextChallengeId)
    ensures outcome == Respond(SubmitStatus(old(db.challenges), old(db.games), old(db.cores), challengeId, now, lookupFails, updateFails))
    ensures outcome != Respond(StatusOk) ==> db.challenges == old(db.challenges) && db.games == old(db.games)
    ensures outcome == Respond(StatusOk) ==>
      var c := Find(old(db.challenges), challengeId).value;
      && db.challenges == Replace(old(db.challenges), Scored(c, guess, old(db.cores)[c.coreId].score, now))
      && db.games == if finalizeFails then old(db.games)
                     else old(db.games)[c.gameId := Finalised(old(db.games)[c.gameId], OfGame(db.challenges, c.gameId), rule)]
  {
    var status := SubmitStatus(db.challenges, db.games, db.cores, challengeId, now, lookupFails, updateFails);
    if status != StatusOk {
      return Respond(status);
    }
    var c := Find(db.challenges, challengeId).value;
    RecordGuess(db, c, Scored(c, guess, db.cores[c.coreId].score, now));
    if !finalizeFails {
      FinaliseGame(db, c.gameId, rule);
    }
    return Respond(StatusOk);
  }

  /** Replacing a row by a well-formed one with the same id keeps the table's order and row invariants. */
  lemma ReplaceKeepsRows(cs: seq<Challenge>, i: int, s: Challenge, nextId: int)
    requires ChallengeTable(cs, nextId) && 0 <= i < |cs| && s.id == cs[i].id && WellFormed(s)
    ensures ChallengeTable(Replace(cs, s), nextId)
  {
    var r := Replace(cs, s);
    forall a, b | 0 <= a < b < |r| ensures r[a].id < r[b].id {
      assert r[a].id == cs[a].id && r[b].id == cs[b].id;
    }
    forall x | x in r ensures x.id < nextId && WellFormed(x) {
      ReplacedRow(cs, s, x);
    }
  }

  /** A row of the replaced table is the new row or an old one. */
  lemma ReplacedRow(cs: seq<Challenge>, s: Challenge, x: Challenge)
    requires x in Replace(cs, s)
    ensures x == s || x in cs
  {
    var r := Replace(cs, s);
    var k :| 0 <= k < |r| && r[k] == x;
    assert x == s || x == cs[k];
  }

  /** Scoring touches the submitted row only, and afterwards that row is found with its guess. */
  lemma ScoringTouchesOneRow(cs: seq<Challenge>, i: int, s: Challenge)
    requires Ascending(cs) && 0 <= i < |cs| && s.id == cs[i].id
    ensures Ascending(Replace(cs, s))
    ensures Find(Replace(cs, s), s.id) == Some(s)
    ensures forall k :: 0 <= k < |cs| && k != i ==> Replace(cs, s)[k] == cs[k]
  {
    FindInAscending(Replace(cs, s), i);
  }

  /** A challenge is scored at most once: once a submission has succeeded, submitting the same
      challenge again, at any time, is rejected with 400. */
  lemma SecondSubmissionRejected(cs: seq<Challenge>, games: map<int, Game>, games': map<int, Game>,
                                 cores: map<int, Her2Core>, challengeId: int, guess: int, now: int, later: int)
    requires Ascending(cs)
    requires SubmitStatus(cs, games, cores, challengeId, now, false, false) == StatusOk
    requires forall id :: id in games ==> id in games'
    ensures var c := Find(cs, challengeId).value;
      SubmitStatus(Replace(cs, Scored(c, guess, cores[c.coreId].score, now)), games', cores, challengeId, later, false, false) == StatusBadRequest
  {
    var c := Find(cs, challengeId).value;
    var i :| 0 <= i < |cs| && cs[i] == c;
    ScoringTouchesOneRow(cs, i, Scored(c, guess, cores[c.coreId].score, now));
  }

  // The finalisation rule as the handler's SQL writes it: a game counts as complete when the
  // minimum of `coalesce(points, -1)` over its challenges is not -1.

  /** The minimum over the game's challenges of their points, with NULL read as -1. */
  function MinCoalesced(gcs: seq<Challenge>): (m: int)
    requires |gcs| > 0
    ensures forall i :: 0 <= i < |gcs| ==> m <= gcs[i].points.GetOr(-1)
    ensures exists i :: 0 <= i < |gcs| && m == gcs[i].points.GetOr(-1)
  {
    if |gcs| == 1 then gcs[0].points.GetOr(-1)
    else
      var rest := MinCoalesced(gcs[1..]);
      assert forall i :: 1 <= i < |gcs| ==> gcs[i] == gcs[1..][i - 1];
      if gcs[0].points.GetOr(-1) <= rest then gcs[0].points.GetOr(-1) else rest
  }

  /** The completeness test as written. */
  predicate FinalisesAsWritten(gcs: seq<Challenge>) {
    |gcs| > 0 && MinCoalesced(gcs) != -1
  }

  /** The game's score as the written query sets it: the sum of the points when the written test passes. */
  function FinalScoreAsWritten(gcs: seq<Challenge>): (r: Option<int>)
    ensures r.Some? <==> FinalisesAsWritten(gcs)
  {
    if FinalisesAsWritten(gcs) then
      var i :| 0 <= i < |gcs| && MinCoalesced(gcs) == gcs[i].points.GetOr(-1);
      assert PointsColumn(gcs)[i].Some?;
      SqlSum(PointsColumn(gcs))
    else None
  }

  /** The game's time as the written query sets it, under the same test as its score. */
  function FinalTimeAsWritten(gcs: seq<Challenge>): (r: Option<int>)
    ensures r.Some? ==> FinalisesAsWritten(gcs)
  {
    if FinalisesAsWritten(gcs) then SqlSum(ElapsedColumn(gcs)) else None
  }

  /** As written too, over well-formed rows the time is set exactly when the score is. */
  lemma FinalTimeAsWrittenWithScore(gcs: seq<Challenge>)
    requires forall i :: 0 <= i < |gcs| ==> WellFormed(gcs[i])
    ensures FinalTimeAsWritten(gcs).Some? <==> FinalScoreAsWritten(gcs).Some?
  {
    if FinalisesAsWritten(gcs) {
      var i :| 0 <= i < |gcs| && MinCoalesced(gcs) == gcs[i].points.GetOr(-1);
      assert Elapsed(gcs[i]).Some?;
      assert ElapsedColumn(gcs)[i].Some?;
    }
  }

  /** A challenge of game 1 on core 1 with the given points; answered exactly when it has points. */
  function Row(id: int, points: Option<int>): Challenge {
    Challenge(id, 1, 1, if points.Some? then Some(0) else None, Some(0),
              if points.Some? then Some(6000) else None, points)
  }

  /** As written, a game with one challenge scored -2 and one unanswered is finalised with score -2
      and the first answer's time. */
  lemma AsWrittenFinalisesUnfinishedGame()
    ensures var gcs := [Row(1, Some(-2)), Row(2, None)];
      && !AllScored(gcs) && FinalScore(gcs) == None
      && FinalisesAsWritten(gcs) && FinalScoreAsWritten(gcs) == Some(-2)
      && FinalTime(gcs) == None && FinalTimeAsWritten(gcs) == Some(6000)
  {
    var gcs := [Row(1, Some(-2)), Row(2, None)];
    assert MinCoalesced(gcs[1..]) == -1;
    assert PointsColumn(gcs) == [Some(-2), None];
    assert ElapsedColumn(gcs) == [Some(6000), None];
  }

  /** As written, a fully answered game with a -1 answer is never finalised: score and time stay NULL. */
  lemma AsWrittenMissesFinishedGame()
    ensures var gcs := [Row(1, Some(5)), Row(2, Some(-1))];
      && AllScored(gcs) && FinalScore(gcs) == Some(4)
      && !FinalisesAsWritten(gcs) && FinalScoreAsWritten(gcs) == None
      && FinalTime(gcs) == Some(12000) && FinalTimeAsWritten(gcs) == None
  {
    var gcs := [Row(1, Some(5)), Row(2, Some(-1))];
    assert MinCoalesced(gcs[1..]) == -1;
    assert PointsColumn(gcs) == [Some(5), Some(-1)];
    assert PointsColumn(gcs)[1..] == [Some(-1)];
    assert ElapsedColumn(gcs) == [Some(6000), Some(6000)];
    assert ElapsedColumn(gcs)[1..] == [Some(6000)];
  }

  /** The written test is right for games without penalties: when every recorded score is
      at least 0, it holds exactly when every challenge is scored. */
  lemma {:induction false} AsWrittenRightWithoutPenalties(gcs: seq<Challenge>)
    requires forall i :: 0 <= i < |gcs| ==> gcs[i].points.Some? ==> gcs[i].points.value >= 0
    ensures FinalisesAsWritten(gcs) <==> AllScored(gcs)
  {
    if |gcs| > 1 {
      AsWrittenRightWithoutPenalties(gcs[1..]);
      assert forall i :: 1 <= i < |gcs| ==> gcs[i] == gcs[1..][i - 1];
    }
  }

  /** Without penalties the handler finalises a game the same way under either rule. */
  lemma RulesAgreeWithoutPenalties(g: Game, gcs: seq<Challenge>)
    requires forall i :: 0 <= i < |gcs| ==> gcs[i].points.Some? ==> gcs[i].points.value >= 0
    ensures Finalised(g, gcs, AsWritten) == Finalised(g, gcs, Intended)
  {
    AsWrittenRightWithoutPenalties(gcs);
  }
}
