/**
 * `POST /games/:id/quit`: end a game early. The game's score and time become
 * the totals over the challenges answered so far, and its unanswered
 * challenges are deleted, both in one transaction.
 */
module QuitGame {
  import opened Wrappers
  import opened Records

  /** The table without the game's unanswered challenges (`delete … where game_id = $1 and guess is null`). */
  function DropUnanswered(cs: seq<Challenge>, gameId: int): (r: seq<Challenge>)
    ensures |r| <= |cs|
    ensures forall c :: c in r <==> c in cs && !(c.gameId == gameId && c.guess.None?)
    ensures Ascending(cs) ==> Ascending(r)
  {
    if cs == [] then []
    else (if cs[0].gameId == gameId && cs[0].guess.None? then [] else [cs[0]]) + DropUnanswered(cs[1..], gameId)
  }

  /** The game's score: the SQL sum of its challenges' points, NULL when none has points. */
  function TotalScore(cs: seq<Challenge>, gameId: int): Option<int> {
    SqlSum(PointsColumn(OfGame(cs, gameId)))
  }

  /** The game's time: the SQL sum of its challenges' answer durations, NULL when none was answered. */
  function TotalTime(cs: seq<Challenge>, gameId: int): Option<int> {
    SqlSum(ElapsedColumn(OfGame(cs, gameId)))
  }

  /** The `games` table after the transaction's update. */
  function QuitGames(games: map<int, Game>, cs: seq<Challenge>, gameId: int): (r: map<int, Game>)
    requires gameId in games
    ensures r.Keys == games.Keys
    ensures forall id :: id in games && id != gameId ==> r[id] == games[id]
    ensures r[gameId] == games[gameId].(score := TotalScore(cs, gameId), timeTakenMs := TotalTime(cs, gameId))
  {
    games[gameId := games[gameId].(score := TotalScore(cs, gameId), timeTakenMs := TotalTime(cs, gameId))]
  }

  /** The status of a quit. `lookupFails` is a failure of the game lookup, `txFails` of the transaction. */
  function QuitStatus(games: map<int, Game>, gameId: int, lookupFails: bool, txFails: bool): (status: int)
    ensures status == StatusOk <==>
      !lookupFails && !txFails && gameId in games && games[gameId].score.None? && games[gameId].timeTakenMs.None?
    ensures status == StatusNotFound <==> !lookupFails && gameId !in games
    ensures lookupFails ==> status == StatusServerError
    ensures !lookupFails && gameId in games && (games[gameId].score.Some? || games[gameId].timeTakenMs.Some?) ==>
      status == StatusBadRequest
    ensures !lookupFails && gameId in games && games[gameId].score.None? && games[gameId].timeTakenMs.None? && txFails ==>
      status == StatusServerError
    ensures status in {StatusOk, StatusBadRequest, StatusNotFound, StatusServerError}
  {
    if lookupFails then StatusServerError
    else if gameId !in games then StatusNotFound
    else if games[gameId].score.Some? || games[gameId].timeTakenMs.Some? then StatusBadRequest
    else if txFails then StatusServerError
    else StatusOk
  }

  /** The handler: all or nothing, the update and the delete happen together only when it answers 200. */
  method QuitGame(db: Database, gameId: int, lookupFails: bool, txFails: bool) returns (outcome: Outcome)
    requires db.Valid()
    modifies db`games, db`challenges
    ensures db.Valid()
    ensures outcome == Respond(QuitStatus(old(db.games), gameId, lookupFails, txFails))
    ensures outcome == Respond(StatusOk) ==>
      && db.games == QuitGames(old(db.games), old(db.challenges), gameId)
      && db.challenges == DropUnanswered(old(db.challenges), gameId)
    ensures outcome != Respond(StatusOk) ==> db.games == old(db.games) && db.challenges == old(db.challenges)
  {
    var status := QuitStatus(db.games, gameId, lookupFails, txFails);
    if status != StatusOk {
      return Respond(status);
    }
    db.games := QuitGames(db.games, db.challenges, gameId);
    DropKeepsTable(db.challenges, gameId, db.nextChallengeId);
    db.challenges := DropUnanswered(db.challenges, gameId);
    return Respond(StatusOk);
  }

  lemma DropKeepsTable(cs: seq<Challenge>, gameId: int, nextId: int)
    requires ChallengeTable(cs, nextId)
    ensures ChallengeTable(DropUnanswered(cs, gameId), nextId)
  {
  }

  /** Deleting the unanswered challenges a second time deletes nothing. */
  lemma DropIdempotent(cs: seq<Challenge>, gameId: int)
    ensures DropUnanswered(DropUnanswered(cs, gameId), gameId) == DropUnanswered(cs, gameId)
  {
    DropNothing(DropUnanswered(cs, gameId), gameId);
  }

  /** A table without unanswered challenges of the game is left as it is. */
  lemma {:induction false} DropNothing(cs: seq<Challenge>, gameId: int)
    requires forall c :: c in cs ==> !(c.gameId == gameId && c.guess.None?)
    ensures DropUnanswered(cs, gameId) == cs
  {
    if cs != [] {
      assert cs[0] in cs;
      DropNothing(cs[1..], gameId);
      assert [cs[0]] + cs[1..] == cs;
    }
  }

  /** The answered challenges among `gcs`, in order. */
  function Answered(gcs: seq<Challenge>): seq<Challenge> {
    if gcs == [] then [] else (if gcs[0].guess.Some? then [gcs[0]] else []) + Answered(gcs[1..])
  }

  /** After the delete, the game's challenges are its answered ones. */
  lemma {:induction false} OfGameAfterDrop(cs: seq<Challenge>, gameId: int)
    ensures OfGame(DropUnanswered(cs, gameId), gameId) == Answered(OfGame(cs, gameId))
  {
    if cs != [] {
      OfGameAfterDrop(cs[1..], gameId);
      var c := cs[0];
      var d := DropUnanswered(cs, gameId);
      var d' := DropUnanswered(cs[1..], gameId);
      var g := OfGame(cs, gameId);
      if c.gameId == gameId {
        assert g == [c] + OfGame(cs[1..], gameId) && g[1..] == OfGame(cs[1..], gameId);
        if c.guess.None? {
          assert d == d';
        } else {
          assert d == [c] + d' && d[1..] == d';
        }
      } else {
        assert d == [c] + d' && d[1..] == d';
        assert g == OfGame(cs[1..], gameId);
      }
    }
  }

  lemma PointsColumnCons(c: Challenge, rest: seq<Challenge>)
    ensures PointsColumn([c] + rest) == [c.points] + PointsColumn(rest)
  {
  }

  lemma ElapsedColumnCons(c: Challenge, rest: seq<Challenge>)
    ensures ElapsedColumn([c] + rest) == [Elapsed(c)] + ElapsedColumn(rest)
  {
  }

  /** Unanswered rows add nothing to the SQL sum of points. */
  lemma {:induction false} AnsweredKeepsPoints(gcs: seq<Challenge>)
    requires forall i :: 0 <= i < |gcs| ==> WellFormed(gcs[i])
    ensures SqlSum(PointsColumn(Answered(gcs))) == SqlSum(PointsColumn(gcs))
  {
    if gcs != [] {
      var c, tail := gcs[0], gcs[1..];
      assert gcs == [c] + tail;
      AnsweredKeepsPoints(tail);
      PointsColumnCons(c, tail);
      SqlSumCons(c.points, PointsColumn(tail));
      if c.guess.Some? {
        assert Answered(gcs) == [c] + Answered(tail);
        PointsColumnCons(c, Answered(tail));
        SqlSumCons(c.points, PointsColumn(Answered(tail)));
      } else {
        assert WellFormed(gcs[0]);
        assert Answered(gcs) == Answered(tail);
      }
    }
  }

  /** Unanswered rows add nothing to the SQL sum of answer durations. */
  lemma {:induction false} AnsweredKeepsTime(gcs: seq<Challenge>)
    requires forall i :: 0 <= i < |gcs| ==> WellFormed(gcs[i])
    ensures SqlSum(ElapsedColumn(Answered(gcs))) == SqlSum(ElapsedColumn(gcs))
  {
    if gcs != [] {
      var c, tail := gcs[0], gcs[1..];
      assert gcs == [c] + tail;
      AnsweredKeepsTime(tail);
      ElapsedColumnCons(c, tail);
      SqlSumCons(Elapsed(c), ElapsedColumn(tail));
      if c.guess.Some? {
        assert Answered(gcs) == [c] + Answered(tail);
        ElapsedColumnCons(c, Answered(tail));
        SqlSumCons(Elapsed(c), ElapsedColumn(Answered(tail)));
      } else {
        assert WellFormed(gcs[0]);
        assert Answered(gcs) == Answered(tail);
      }
    }
  }

  /** Deleting unanswered rows does not change the totals, as those rows have neither points nor a duration. */
  lemma DropKeepsTotals(cs: seq<Challenge>, gameId: int)
    requires forall c :: c in cs ==> WellFormed(c)
    ensures TotalScore(DropUnanswered(cs, gameId), gameId) == TotalScore(cs, gameId)
    ensures TotalTime(DropUnanswered(cs, gameId), gameId) == TotalTime(cs, gameId)
  {
    OfGameAfterDrop(cs, gameId);
    var g := OfGame(cs, gameId);
    forall i | 0 <= i < |g| ensures WellFormed(g[i]) {
      assert g[i] in g;
    }
    AnsweredKeepsPoints(g);
    AnsweredKeepsTime(g);
  }

  /** Quitting twice: the second quit is rejected with 400 because the first one set a total, or it
      writes back exactly what is already there. */
  lemma SecondQuitChangesNothing(games: map<int, Game>, cs: seq<Challenge>, gameId: int)
    requires forall c :: c in cs ==> WellFormed(c)
    requires QuitStatus(games, gameId, false, false) == StatusOk
    ensures var games', cs' := QuitGames(games, cs, gameId), DropUnanswered(cs, gameId);
      || QuitStatus(games', gameId, false, false) == StatusBadRequest
      || (QuitGames(games', cs', gameId) == games' && DropUnanswered(cs', gameId) == cs')
  {
    DropKeepsTotals(cs, gameId);
    DropIdempotent(cs, gameId);
  }
}
