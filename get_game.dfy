/**
 * `GET /games/:id`: the results of one game. The joined rows of the game's
 * guessed challenges are turned into results, summed, and sorted into
 * severe, moderate and mild mistakes and correct answers. Nothing is written.
 */
module GetGame {
  import opened Wrappers
  import opened Records
  import Scoring

  /** One row of `games ⋈ challenges ⋈ her2_cores`. */
  datatype Row = Row(game: Game, challenge: Challenge, core: Her2Core)

  /** One answered challenge as reported to the client (without its duration in seconds). */
  datatype GameResult = GameResult(challengeId: int, guess: int, correctScore: int, points: int)

  datatype GroupedResults = GroupedResults(
    severeMistakes: seq<GameResult>,
    moderateMistakes: seq<GameResult>,
    mildMistakes: seq<GameResult>,
    correct: seq<GameResult>)

  datatype GameResponse = GameResponse(id: int, user: string, results: GroupedResults, totalPoints: int)

  datatype Reply = Status(code: int) | Found(response: GameResponse)

  predicate RowsAscending(rows: seq<Row>) {
    forall i, j :: 0 <= i < j < |rows| ==> rows[i].challenge.id < rows[j].challenge.id
  }

  predicate ResultsAscending(rs: seq<GameResult>) {
    forall i, j :: 0 <= i < j < |rs| ==> rs[i].challengeId < rs[j].challengeId
  }

  /** The inner join filtered to one game, in challenge-id order: a challenge
      contributes a row when its game and its core both exist. */
  function JoinRows(games: map<int, Game>, cs: seq<Challenge>, cores: map<int, Her2Core>, gameId: int): (rows: seq<Row>)
    ensures forall row :: row in rows <==>
      && gameId in games && row.game == games[gameId]
      && row.challenge in cs && row.challenge.gameId == gameId
      && row.challenge.coreId in cores && row.core == cores[row.challenge.coreId]
    ensures Ascending(cs) ==> RowsAscending(rows)
  {
    if gameId !in games || cs == [] then []
    else
      var c := cs[0];
      (if c.gameId == gameId && c.coreId in cores then [Row(games[gameId], c, cores[c.coreId])] else [])
      + JoinRows(games, cs[1..], cores, gameId)
  }

  /** The handler's nested `points`: the score of the guess against the core, 0 without a guess. */
  function Points(ch: Challenge, co: Her2Core): (p: int)
    ensures -5 <= p <= 5
    ensures ch.guess.None? ==> p == 0
  {
    if ch.guess.Some? then Scoring.GetScore(ch.guess.value, co.score) else 0
  }

  function ResultOf(row: Row): GameResult
    requires row.challenge.guess.Some?
  {
    GameResult(row.challenge.id, row.challenge.guess.value, row.core.score, Points(row.challenge, row.core))
  }

  function CountGuessed(rows: seq<Row>): (n: nat)
    ensures n <= |rows|
    ensures n == 0 <==> forall row :: row in rows ==> row.challenge.guess.None?
  {
    if rows == [] then 0 else (if rows[0].challenge.guess.Some? then 1 else 0) + CountGuessed(rows[1..])
  }

  /** The rows with a guess, as results, in row order; each result's points
      are the confusion-matrix score of its guess against the core's level. */
  function Results(rows: seq<Row>): (rs: seq<GameResult>)
    ensures |rs| == CountGuessed(rows)
    ensures forall row :: row in rows && row.challenge.guess.Some? ==> ResultOf(row) in rs
    ensures forall r :: r in rs ==> exists row :: row in rows && row.challenge.guess.Some? && r == ResultOf(row)
    ensures forall r :: r in rs ==> r.points == Scoring.GetScore(r.guess, r.correctScore)
  {
    if rows == [] then []
    else (if rows[0].challenge.guess.Some? then [ResultOf(rows[0])] else []) + Results(rows[1..])
  }

  /** A lower bound on the rows' challenge ids bounds the results' ids. */
  lemma {:induction false} ResultsAbove(rows: seq<Row>, x: int)
    requires forall k :: 0 <= k < |rows| ==> x < rows[k].challenge.id
    ensures forall k :: 0 <= k < |Results(rows)| ==> x < Results(rows)[k].challengeId
  {
    if rows != [] {
      ResultsAbove(rows[1..], x);
    }
  }

  /** A result below every id of an ascending sequence can go in front of it. */
  lemma InFront(r: GameResult, rs: seq<GameResult>)
    requires ResultsAscending(rs)
    requires forall k :: 0 <= k < |rs| ==> r.challengeId < rs[k].challengeId
    ensures ResultsAscending([r] + rs)
  {
    var out := [r] + rs;
    forall i, j | 0 <= i < j < |out| ensures out[i].challengeId < out[j].challengeId {
      assert out[j] == rs[j - 1];
      if 0 < i {
        assert out[i] == rs[i - 1];
      }
    }
  }

  /** Results keep the order of their rows. */
  lemma {:induction false} ResultsKeepOrder(rows: seq<Row>)
    requires RowsAscending(rows)
    ensures ResultsAscending(Results(rows))
  {
    if rows != [] {
      var tail := Results(rows[1..]);
      ResultsKeepOrder(rows[1..]);
      ResultsAbove(rows[1..], rows[0].challenge.id);
      if rows[0].challenge.guess.Some? {
        assert Results(rows) == [ResultOf(rows[0])] + tail;
        InFront(ResultOf(rows[0]), tail);
      } else {
        assert Results(rows) == tail;
      }
    }
  }

  /** `total_points`: the sum of the results' points. */
  function TotalPoints(rs: seq<GameResult>): int {
    if rs == [] then 0 else rs[0].points + TotalPoints(rs[1..])
  }

  datatype Bucket = Severe | Moderate | Mild | Correct

  /** The four categories: at most -3, exactly -2, exactly -1, exactly 5. */
  predicate InBucket(points: int, b: Bucket) {
    match b
    case Severe => points <= -3
    case Moderate => points == -2
    case Mild => points == -1
    case Correct => points == 5
  }

  /** The results of one category, in result order. */
  function BucketOf(rs: seq<GameResult>, b: Bucket): (out: seq<GameResult>)
    ensures |out| <= |rs|
    ensures forall r :: r in out <==> r in rs && InBucket(r.points, b)
  {
    if rs == [] then []
    else (if InBucket(rs[0].points, b) then [rs[0]] else []) + BucketOf(rs[1..], b)
  }

  function Group(rs: seq<GameResult>): GroupedResults {
    GroupedResults(BucketOf(rs, Severe), BucketOf(rs, Moderate), BucketOf(rs, Mild), BucketOf(rs, Correct))
  }

  /** The handler. `dbError` is the failure of the join query. */
  function GetGame(games: map<int, Game>, cs: seq<Challenge>, cores: map<int, Her2Core>, gameId: int, dbError: bool): (r: Reply)
    ensures r == Status(StatusServerError) <==> dbError
    ensures !dbError ==> (r == Status(StatusBadRequest) <==> CountGuessed(JoinRows(games, cs, cores, gameId)) == 0)
    ensures r.Found? ==> gameId in games && r.response.id == gameId && r.response.user == games[gameId].userId
    ensures r.Found? ==> var rs := Results(JoinRows(games, cs, cores, gameId));
      r.response.results == Group(rs) && r.response.totalPoints == TotalPoints(rs)
  {
    if dbError then Status(StatusServerError)
    else
      var rows := JoinRows(games, cs, cores, gameId);
      if |rows| == 0 then Status(StatusBadRequest)
      else if CountGuessed(rows) == 0 then Status(StatusBadRequest)
      else
        var rs := Results(rows);
        Found(GameResponse(gameId, rows[0].game.userId, Group(rs), TotalPoints(rs)))
  }

  /** A game with no rows at all (unknown, or without challenges) is a bad request. */
  lemma NoRowsIsBadRequest(games: map<int, Game>, cs: seq<Challenge>, cores: map<int, Her2Core>, gameId: int)
    requires forall c :: c in cs ==> c.gameId != gameId
    ensures GetGame(games, cs, cores, gameId, false) == Status(StatusBadRequest)
  {
    var rows := JoinRows(games, cs, cores, gameId);
    if rows != [] {
      assert rows[0] in rows;
    }
  }

  /** The results are exactly the guessed challenges of the game, in ascending challenge-id order,
      each scored by the confusion matrix. */
  lemma ResultsOfGame(games: map<int, Game>, cs: seq<Challenge>, cores: map<int, Her2Core>, gameId: int)
    requires Ascending(cs)
    requires GetGame(games, cs, cores, gameId, false).Found?
    ensures var rs := Results(JoinRows(games, cs, cores, gameId));
      && ResultsAscending(rs)
      && (forall c :: c in cs && c.gameId == gameId && c.guess.Some? && c.coreId in cores ==>
            GameResult(c.id, c.guess.value, cores[c.coreId].score, Scoring.GetScore(c.guess.value, cores[c.coreId].score)) in rs)
      && (forall r :: r in rs ==> exists c :: c in cs && c.gameId == gameId && c.guess == Some(r.guess) && c.id == r.challengeId)
  {
    var rows := JoinRows(games, cs, cores, gameId);
    ResultsKeepOrder(rows);
    forall c | c in cs && c.gameId == gameId && c.guess.Some? && c.coreId in cores
      ensures GameResult(c.id, c.guess.value, cores[c.coreId].score, Scoring.GetScore(c.guess.value, cores[c.coreId].score)) in Results(rows)
    {
      GuessedHasResult(rows, Row(games[gameId], c, cores[c.coreId]));
    }
  }

  lemma GuessedHasResult(rows: seq<Row>, row: Row)
    requires row in rows && row.challenge.guess.Some?
    ensures GameResult(row.challenge.id, row.challenge.guess.value, row.core.score,
                       Scoring.GetScore(row.challenge.guess.value, row.core.score)) in Results(rows)
  {
    assert ResultOf(row) in Results(rows);
  }

  /** No result is in two categories. */
  lemma BucketsDisjoint(rs: seq<GameResult>, b1: Bucket, b2: Bucket, r: GameResult)
    requires r in BucketOf(rs, b1) && r in BucketOf(rs, b2)
    ensures b1 == b2
  {
  }

  /** Every result whose points the confusion matrix can produce lands in exactly one category. */
  lemma {:induction false} BucketsCover(rs: seq<GameResult>)
    requires forall r :: r in rs ==> r.points == 5 || r.points == -1 || r.points == -2 || -5 <= r.points <= -3
    ensures |BucketOf(rs, Severe)| + |BucketOf(rs, Moderate)| + |BucketOf(rs, Mild)| + |BucketOf(rs, Correct)| == |rs|
  {
    if rs != [] {
      assert rs[0] in rs;
      BucketsCover(rs[1..]);
    }
  }

  /** In a game's response the four categories together hold every result exactly once. */
  lemma ResponsePartitionsResults(rows: seq<Row>)
    ensures var rs := Results(rows); var g := Group(rs);
      |g.severeMistakes| + |g.moderateMistakes| + |g.mildMistakes| + |g.correct| == |rs|
  {
    var rs := Results(rows);
    forall r | r in rs
      ensures r.points == 5 || r.points == -1 || r.points == -2 || -5 <= r.points <= -3
    {
      Scoring.ScoreValues(r.guess, r.correctScore);
    }
    BucketsCover(rs);
  }

  /** The total lies between -5 and 5 points per result, and reaches 5 per result exactly when every result is correct. */
  lemma {:induction false} TotalPointsBounds(rs: seq<GameResult>)
    requires forall r :: r in rs ==> -5 <= r.points <= 5
    ensures -5 * |rs| <= TotalPoints(rs) <= 5 * |rs|
    ensures TotalPoints(rs) == 5 * |rs| <==> BucketOf(rs, Correct) == rs
  {
    if rs != [] {
      assert rs[0] in rs;
      TotalPointsBounds(rs[1..]);
      if BucketOf(rs, Correct) == rs {
        assert |BucketOf(rs[1..], Correct)| <= |rs[1..]|;
        assert rs[0].points == 5;
      }
    }
  }
}
