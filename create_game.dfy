/**
 * `POST /games?mode=…`: start a game. The mode fixes the game's type and
 * size; a test game draws its cores from a fixed list of test images, a
 * training game from every other core, in random order. The game row and its
 * challenge rows are inserted, and the game row is deleted again when no core
 * could be drawn.
 */
module CreateGame {
  import opened Wrappers
  import opened Records

  /** The cores reserved for pretest and posttest games. */
  const TestImageIds: seq<int> := [
    345, 20125, 23246, 6134, 9192, 4376, 1162, 22787, 9809, 19324,
    2907, 14342, 14795, 438, 12330, 10186, 8781, 12076, 19052, 6547,
    5077, 8050, 9934, 23774, 10636, 13660, 20394, 18529, 19444, 4625,
    19430, 23853, 210, 16056, 5231, 940, 8939, 22438, 12988, 15627,
    3138, 18219, 18021, 19185, 22208, 22696, 15629, 9052, 23770, 18238
  ]

  /** A test game is one whose mode is "pretest" or "posttest". */
  predicate IsTest(mode: Option<string>) {
    mode == Some("pretest") || mode == Some("posttest")
  }

  /** The stored `game_type`: the mode as given, "training" when there is none. */
  function GameType(mode: Option<string>): (t: string)
    ensures mode.Some? ==> t == mode.value
    ensures mode.None? ==> t == "training"
  {
    mode.GetOr("training")
  }

  function ChallengesPerGame(mode: Option<string>): nat {
    if IsTest(mode) then 50 else 20
  }

  function MaxScore(mode: Option<string>): int {
    ChallengesPerGame(mode) * 5
  }

  /** A new game's challenge rows are exactly the rows inserted for it, at most its size: 50 for a
      test game and 20 otherwise, and its max_score is 5 points for each of them when full. */
  lemma GameSize(cs: seq<Challenge>, nextId: int, gameId: int, order: seq<int>, mode: Option<string>)
    requires forall k :: 0 <= k < |cs| ==> cs[k].gameId != gameId
    ensures var added := NewChallenges(nextId, gameId, Picks(order, ChallengesPerGame(mode)));
      var gcs := OfGame(cs + added, gameId);
      && gcs == added
      && |gcs| <= ChallengesPerGame(mode)
      && MaxScore(mode) == 5 * ChallengesPerGame(mode)
      && MaxScore(mode) == (if mode == Some("pretest") || mode == Some("posttest") then 250 else 100)
  {
    var added := NewChallenges(nextId, gameId, Picks(order, ChallengesPerGame(mode)));
    OfGameAppend(cs, added, gameId);
    OfGameNone(cs, gameId);
    OfGameAll(added, gameId);
  }

  /** With the foreign key in place, no challenge row carries the next game id yet. */
  lemma FreshGameHasNoRows(cs: seq<Challenge>, games: map<int, Game>, nextGameId: int)
    requires ChallengesOfGames(cs, games) && GameTable(games, nextGameId)
    ensures forall k :: 0 <= k < |cs| ==> cs[k].gameId != nextGameId
  {
    forall k | 0 <= k < |cs| ensures cs[k].gameId != nextGameId {
      assert cs[k] in cs;
    }
  }

  lemma {:induction false} OfGameAppend(a: seq<Challenge>, b: seq<Challenge>, gameId: int)
    ensures OfGame(a + b, gameId) == OfGame(a, gameId) + OfGame(b, gameId)
  {
    if a != [] {
      assert (a + b)[0] == a[0];
      assert (a + b)[1..] == a[1..] + b;
      OfGameAppend(a[1..], b, gameId);
    } else {
      assert a + b == b;
    }
  }

  lemma OfGameNone(a: seq<Challenge>, gameId: int)
    requires forall k :: 0 <= k < |a| ==> a[k].gameId != gameId
    ensures OfGame(a, gameId) == []
  {
  }

  lemma {:induction false} OfGameAll(b: seq<Challenge>, gameId: int)
    requires forall k :: 0 <= k < |b| ==> b[k].gameId == gameId
    ensures OfGame(b, gameId) == b
  {
    if b != [] {
      OfGameAll(b[1..], gameId);
      assert b == [b[0]] + b[1..];
    }
  }

  /** The cores a game may draw from: the test images for a test game, every other core otherwise. */
  function Pool(cores: map<int, Her2Core>, isTest: bool): (pool: set<int>)
    ensures forall id :: id in pool <==> id in cores && (id in TestImageIds <==> isTest)
  {
    set id | id in cores && (id in TestImageIds <==> isTest)
  }

  predicate Distinct(s: seq<int>) {
    forall i, j :: 0 <= i < j < |s| ==> s[i] != s[j]
  }

  /** `order` lists the pool in some order, each core once: the outcome of `order by random()`. */
  predicate Shuffles(order: seq<int>, pool: set<int>) {
    Distinct(order) && (forall i :: 0 <= i < |order| ==> order[i] in pool) && (forall id :: id in pool ==> id in order)
  }

  /** `limit $2`: the first `n` cores of the shuffled pool. */
  function Picks(order: seq<int>, n: nat): (picks: seq<int>)
    ensures |picks| == if |order| < n then |order| else n
    ensures picks == order[..|picks|]
  {
    if |order| < n then order else order[..n]
  }

  /** A list without repetitions has as many elements as its set. */
  lemma {:induction false} DistinctCardinality(s: seq<int>)
    requires Distinct(s)
    ensures |set x | x in s| == |s|
  {
    if s != [] {
      DistinctCardinality(s[1..]);
      var rest := set x | x in s[1..];
      assert (set x | x in s) == {s[0]} + rest;
      assert s[0] !in rest;
    }
  }

  /** The draw: as many distinct cores as the game size allows and the pool holds, all from the pool. */
  lemma PicksFromPool(order: seq<int>, cores: map<int, Her2Core>, mode: Option<string>)
    requires Shuffles(order, Pool(cores, IsTest(mode)))
    ensures var picks, pool, n := Picks(order, ChallengesPerGame(mode)), Pool(cores, IsTest(mode)), ChallengesPerGame(mode);
      && |picks| == (if |pool| < n then |pool| else n)
      && Distinct(picks)
      && forall i :: 0 <= i < |picks| ==> picks[i] in cores && (picks[i] in TestImageIds <==> IsTest(mode))
  {
    var pool := Pool(cores, IsTest(mode));
    DistinctCardinality(order);
    var listed := set x | x in order;
    forall x | x in listed ensures x in pool {
      var i :| 0 <= i < |order| && order[i] == x;
    }
    forall x | x in pool ensures x in listed {
      assert x in order;
    }
    assert listed == pool;
  }

  /** The challenge rows inserted for `picks`, with serial ids from `startId`: nothing answered yet. */
  function NewChallenges(startId: int, gameId: int, picks: seq<int>): (r: seq<Challenge>)
    ensures |r| == |picks|
    ensures forall k :: 0 <= k < |r| ==> r[k] == Challenge(startId + k, gameId, picks[k], None, None, None, None)
  {
    seq(|picks|, k requires 0 <= k < |picks| => Challenge(startId + k, gameId, picks[k], None, None, None, None))
  }

  lemma AppendNewKeepsTable(cs: seq<Challenge>, nextId: int, gameId: int, picks: seq<int>)
    requires ChallengeTable(cs, nextId)
    ensures ChallengeTable(cs + NewChallenges(nextId, gameId, picks), nextId + |picks|)
  {
    var r := cs + NewChallenges(nextId, gameId, picks);
    forall x | x in r ensures x.id < nextId + |picks| && WellFormed(x) {
      if x !in cs {
        var k :| 0 <= k < |r| && r[k] == x;
        assert r[k] == NewChallenges(nextId, gameId, picks)[k - |cs|];
      }
    }
    forall i, j | 0 <= i < j < |r| ensures r[i].id < r[j].id {
      if j >= |cs| && i < |cs| {
        assert r[i] in cs;
      }
    }
  }

  /** Storing a game keeps every challenge's game stored. */
  lemma AddGameKeepsKeys(cs: seq<Challenge>, games: map<int, Game>, g: Game)
    requires ChallengesOfGames(cs, games)
    ensures ChallengesOfGames(cs, games[g.id := g])
  {
  }

  /** The inserted rows belong to a stored game, so the foreign key still holds. */
  lemma AppendNewKeepsKeys(cs: seq<Challenge>, games: map<int, Game>, nextId: int, gameId: int, picks: seq<int>)
    requires ChallengesOfGames(cs, games) && gameId in games
    ensures ChallengesOfGames(cs + NewChallenges(nextId, gameId, picks), games)
  {
    var r := cs + NewChallenges(nextId, gameId, picks);
    forall x | x in r ensures x.gameId in games {
      if x !in cs {
        var k :| 0 <= k < |r| && r[k] == x;
        assert r[k] == NewChallenges(nextId, gameId, picks)[k - |cs|];
      }
    }
  }

  /** A game never scores more than its maximum: at most 5 points for each of its challenges. */
  lemma AchievableWithinMax(gcs: seq<Challenge>, mode: Option<string>)
    requires |gcs| <= ChallengesPerGame(mode)
    requires forall i :: 0 <= i < |gcs| ==> WellFormed(gcs[i])
    ensures SqlSum(PointsColumn(gcs)).Some? ==> SqlSum(PointsColumn(gcs)).value <= MaxScore(mode)
  {
    SqlSumBounds(PointsColumn(gcs), -5, 5);
  }

  datatype Reply = Created(id: int, user: string) | Failed(status: int, message: string) | Crashed

  /** The handler. `userId` is the validated request's `user_id`; `now` is the insert time; `order` is
      the random order of the pool; `gameInsertFails`, `challengesFail` and `deleteFails` are failures of
      the three statements, each of which panics (`Crashed`). */
  method CreateGame(db: Database, mode: Option<string>, userId: string, now: int, order: seq<int>,
                    gameInsertFails: bool, challengesFail: bool, deleteFails: bool) returns (reply: Reply)
    requires db.Valid()
    requires Shuffles(order, Pool(db.cores, IsTest(mode)))
    modifies db`games, db`challenges, db`nextGameId, db`nextChallengeId
    ensures db.Valid()
    ensures var gameId := old(db.nextGameId);
      var game := Game(gameId, userId, now, None, MaxScore(mode), None, GameType(mode));
      var picks := Picks(order, ChallengesPerGame(mode));
      if gameInsertFails then
        reply == Crashed && db.games == old(db.games) && db.nextGameId == old(db.nextGameId)
        && db.challenges == old(db.challenges) && db.nextChallengeId == old(db.nextChallengeId)
      else if challengesFail then
        reply == Crashed && db.games == old(db.games)[gameId := game] && db.nextGameId == gameId + 1
        && db.challenges == old(db.challenges) && db.nextChallengeId == old(db.nextChallengeId)
      else if picks == [] then
        reply == (if deleteFails then Crashed else Failed(StatusServerError, "No HER2 cores found"))
        && db.games == (if deleteFails then old(db.games)[gameId := game] else old(db.games))
        && db.nextGameId == gameId + 1
        && db.challenges == old(db.challenges) && db.nextChallengeId == old(db.nextChallengeId)
      else
        reply == Created(gameId, userId)
        && db.games == old(db.games)[gameId := game] && db.nextGameId == gameId + 1
        && db.challenges == old(db.challenges) + NewChallenges(old(db.nextChallengeId), gameId, picks)
        && db.nextChallengeId == old(db.nextChallengeId) + |picks|
        && OfGame(db.challenges, gameId) == NewChallenges(old(db.nextChallengeId), gameId, picks)
        && |OfGame(db.challenges, gameId)| <= ChallengesPerGame(mode)
  {
    if gameInsertFails {
      return Crashed;
    }
    var gameId := db.nextGameId;
    FreshGameHasNoRows(db.challenges, db.games, gameId);
    ghost var game := Game(gameId, userId, now, None, MaxScore(mode), None, GameType(mode));
    AddGameKeepsKeys(db.challenges, db.games, game);
    db.games := db.games[gameId := Game(gameId, userId, now, None, MaxScore(mode), None, GameType(mode))];
    db.nextGameId := gameId + 1;
    if challengesFail {
      return Crashed;
    }
    var picks := InsertChallenges(db, gameId, order, mode);
    if picks == [] {
      if deleteFails {
        return Crashed;
      }
      db.games := db.games - {gameId};
      assert db.games == old(db.games);
      return Failed(StatusServerError, "No HER2 cores found");
    }
    return Created(gameId, userId);
  }

  /** The challenge insert: the first `ChallengesPerGame(mode)` cores of the shuffled pool become rows of
      the game, which had none before, so afterwards its rows are exactly the inserted ones. */
  method InsertChallenges(db: Database, gameId: int, order: seq<int>, mode: Option<string>) returns (picks: seq<int>)
    requires db.Valid() && gameId in db.games
    requires forall k :: 0 <= k < |db.challenges| ==> db.challenges[k].gameId != gameId
    modifies db`challenges, db`nextChallengeId
    ensures db.Valid()
    ensures picks == Picks(order, ChallengesPerGame(mode))
    ensures db.challenges == old(db.challenges) + NewChallenges(old(db.nextChallengeId), gameId, picks)
    ensures db.nextChallengeId == old(db.nextChallengeId) + |picks|
    ensures OfGame(db.challenges, gameId) == NewChallenges(old(db.nextChallengeId), gameId, picks)
    ensures |picks| <= ChallengesPerGame(mode)
    ensures db.games == old(db.games) && db.cores == old(db.cores) && db.nextGameId == old(db.nextGameId)
  {
    picks := Picks(order, ChallengesPerGame(mode));
    GameSize(db.challenges, db.nextChallengeId, gameId, order, mode);
    AppendNewKeepsTable(db.challenges, db.nextChallengeId, gameId, picks);
    AppendNewKeepsKeys(db.challenges, db.games, db.nextChallengeId, gameId, picks);
    db.challenges := db.challenges + NewChallenges(db.nextChallengeId, gameId, picks);
    db.nextChallengeId := db.nextChallengeId + |picks|;
  }
}
