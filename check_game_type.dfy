/**
 * `GET /users/:user_id/game-types`: how many pretest, posttest and training
 * games a user has. Nothing is written.
 */
module CheckGameType {
  import opened Records

  /** The ids of the user's games of one type (`where user_id = $1 and game_type = $2`). */
  function GamesOf(games: map<int, Game>, userId: string, gameType: string): (ids: set<int>)
    ensures forall id :: id in ids <==> id in games && games[id].userId == userId && games[id].gameType == gameType
  {
    set id | id in games && games[id].userId == userId && games[id].gameType == gameType
  }

  /** `count(*)` of that query. */
  function CountGames(games: map<int, Game>, userId: string, gameType: string): nat {
    |GamesOf(games, userId, gameType)|
  }

  datatype GameCounts = GameCounts(pretest: nat, posttest: nat, training: nat)

  datatype Reply = Counts(counts: GameCounts) | Error(status: int)

  /** The handler: the three counts, or 500 if any of the three queries fails. */
  function CheckGameType(games: map<int, Game>, userId: string,
                         pretestFails: bool, posttestFails: bool, trainingFails: bool): (r: Reply)
    ensures r.Error? <==> pretestFails || posttestFails || trainingFails
    ensures r.Error? ==> r.status == StatusServerError
    ensures r.Counts? ==> r.counts == GameCounts(
      CountGames(games, userId, "pretest"), CountGames(games, userId, "posttest"), CountGames(games, userId, "training"))
  {
    if pretestFails || posttestFails || trainingFails then Error(StatusServerError)
    else Counts(GameCounts(
      CountGames(games, userId, "pretest"), CountGames(games, userId, "posttest"), CountGames(games, userId, "training")))
  }

  /** The three counts never exceed the number of games: no game is counted twice. */
  lemma CountsWithinGames(games: map<int, Game>, userId: string)
    ensures CountGames(games, userId, "pretest") + CountGames(games, userId, "posttest")
            + CountGames(games, userId, "training") <= |games|
  {
    var a, b, c := GamesOf(games, userId, "pretest"), GamesOf(games, userId, "posttest"), GamesOf(games, userId, "training");
    assert a * b == {} && (a + b) * c == {};
    assert |a + b| == |a| + |b|;
    assert |a + b + c| == |a + b| + |c|;
    assert a + b + c <= games.Keys;
    SubsetCardinality(a + b + c, games.Keys);
  }

  lemma SubsetCardinality(s: set<int>, t: set<int>)
    requires s <= t
    ensures |s| <= |t|
  {
    assert t == s + (t - s);
  }

  /** A game of another user, or of another type, changes no count. */
  lemma OtherGamesNotCounted(games: map<int, Game>, id: int, g: Game, userId: string, gameType: string)
    requires id !in games
    requires g.userId != userId || g.gameType != gameType
    ensures CountGames(games[id := g], userId, gameType) == CountGames(games, userId, gameType)
  {
    assert GamesOf(games[id := g], userId, gameType) == GamesOf(games, userId, gameType);
  }

  /** A new game of the user counts once, under its own type. */
  lemma NewGameCountedOnce(games: map<int, Game>, id: int, g: Game)
    requires id !in games
    ensures CountGames(games[id := g], g.userId, g.gameType) == CountGames(games, g.userId, g.gameType) + 1
  {
    assert GamesOf(games[id := g], g.userId, g.gameType) == GamesOf(games, g.userId, g.gameType) + {id};
  }
}
