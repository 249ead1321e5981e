/**
 * The rows of the `games`, `challenges` and `her2_cores` tables, the SQL
 * aggregates the endpoints compute over them, and the database that the
 * state-changing endpoints update in place.
 *
 * Timestamps are whole milliseconds. The `challenges` table is kept as a
 * sequence in ascending id order, which is the order every query here asks
 * for (`order by challenges.id`).
 */
module Records {
  import opened Wrappers

  datatype Challenge = Challenge(
    id: int,
    gameId: int,
    coreId: int,
    guess: Option<int>,
    startedAt: Option<int>,
    submittedAt: Option<int>,
    points: Option<int>)

  datatype Game = Game(
    id: int,
    userId: string,
    startedAt: int,
    score: Option<int>,
    maxScore: int,
    timeTakenMs: Option<int>,
    gameType: string)

  /** A tissue core and its ground-truth HER2 level. */
  datatype Her2Core = Her2Core(id: int, score: int)

  /** What a handler ends in: an HTTP status, or a panic from `unwrap`/`expect`, which drops the request. */
  datatype Outcome = Respond(status: int) | Panic

  const StatusOk := 200
  const StatusBadRequest := 400
  const StatusNotFound := 404
  const StatusServerError := 500

  predicate Ascending(cs: seq<Challenge>) {
    forall i, j :: 0 <= i < j < |cs| ==> cs[i].id < cs[j].id
  }

  /** Row consistency every endpoint keeps: a guess comes with its points and
      its submission time, only on a started challenge, and points are a score. */
  predicate WellFormed(c: Challenge) {
    && (c.guess.Some? <==> c.points.Some?)
    && (c.guess.Some? <==> c.submittedAt.Some?)
    && (c.submittedAt.Some? ==> c.startedAt.Some?)
    && (c.points.Some? ==> -5 <= c.points.value <= 5)
  }

  /** The challenges of one game (`where game_id = $1`), in table order. */
  function OfGame(cs: seq<Challenge>, gameId: int): (r: seq<Challenge>)
    ensures |r| <= |cs|
    ensures forall c :: c in r <==> c in cs && c.gameId == gameId
    ensures Ascending(cs) ==> Ascending(r)
  {
    if cs == [] then []
    else (if cs[0].gameId == gameId then [cs[0]] else []) + OfGame(cs[1..], gameId)
  }

  /** The row with the given id, if any. */
  function Find(cs: seq<Challenge>, id: int): (r: Option<Challenge>)
    ensures r.Some? ==> r.value in cs && r.value.id == id
    ensures r.None? ==> forall c :: c in cs ==> c.id != id
  {
    if cs == [] then None else if cs[0].id == id then Some(cs[0]) else Find(cs[1..], id)
  }

  /** The table with every row whose id is `c.id` replaced by `c`. */
  function Replace(cs: seq<Challenge>, c: Challenge): (r: seq<Challenge>)
    ensures |r| == |cs|
    ensures forall i :: 0 <= i < |cs| ==> r[i] == if cs[i].id == c.id then c else cs[i]
    ensures forall i :: 0 <= i < |cs| ==> r[i].id == cs[i].id
  {
    if cs == [] then [] else [if cs[0].id == c.id then c else cs[0]] + Replace(cs[1..], c)
  }

  /** In an ascending table the row with a given id is unique, so Find returns it. */
  lemma FindInAscending(cs: seq<Challenge>, i: int)
    requires Ascending(cs) && 0 <= i < |cs|
    ensures Find(cs, cs[i].id) == Some(cs[i])
  {
    if i > 0 {
      assert cs[0].id < cs[i].id;
      assert cs[1..][i - 1] == cs[i];
      FindInAscending(cs[1..], i - 1);
    }
  }

  /** SQL addition of one entry to a running sum: NULL entries are skipped. */
  function SqlAdd(x: Option<int>, sum: Option<int>): (r: Option<int>)
    ensures r.None? <==> x.None? && sum.None?
  {
    match (x, sum)
    case (None, _) => sum
    case (Some(v), None) => Some(v)
    case (Some(v), Some(w)) => Some(v + w)
  }

  /** SQL `sum` over a nullable column: NULLs are skipped, and an all-NULL (or empty) column sums to NULL. */
  function SqlSum(xs: seq<Option<int>>): (r: Option<int>)
    ensures r.None? <==> forall i :: 0 <= i < |xs| ==> xs[i].None?
  {
    if xs == [] then None else SqlAdd(xs[0], SqlSum(xs[1..]))
  }

  lemma SqlSumCons(x: Option<int>, xs: seq<Option<int>>)
    ensures SqlSum([x] + xs) == SqlAdd(x, SqlSum(xs))
  {
    assert ([x] + xs)[1..] == xs;
  }

  /** A column whose non-NULL entries are bounded sums to a bounded total. */
  lemma {:induction false} SqlSumBounds(xs: seq<Option<int>>, lo: int, hi: int)
    requires forall i :: 0 <= i < |xs| ==> xs[i].Some? ==> lo <= xs[i].value <= hi
    requires lo <= 0 <= hi
    ensures SqlSum(xs).Some? ==> |xs| * lo <= SqlSum(xs).value <= |xs| * hi
  {
    if xs != [] {
      var n := |xs|;
      SqlSumBounds(xs[1..], lo, hi);
      assert (n - 1) * lo + lo == n * lo && (n - 1) * hi + hi == n * hi;
      assert (n - 1) * lo <= 0 <= (n - 1) * hi;
    }
  }

  /** Appending NULL entries does not change a SQL sum. */
  lemma {:induction false} SqlSumSkipsNull(xs: seq<Option<int>>, ys: seq<Option<int>>)
    requires forall i :: 0 <= i < |ys| ==> ys[i].None?
    ensures SqlSum(xs + ys) == SqlSum(xs)
  {
    if xs == [] {
      assert xs + ys == ys;
    } else {
      assert (xs + ys)[1..] == xs[1..] + ys;
      SqlSumSkipsNull(xs[1..], ys);
    }
  }

  /** The `points` column. */
  function PointsColumn(cs: seq<Challenge>): (r: seq<Option<int>>)
    ensures |r| == |cs| && forall i :: 0 <= i < |cs| ==> r[i] == cs[i].points
  {
    seq(|cs|, i requires 0 <= i < |cs| => cs[i].points)
  }

  /** `submitted_at - started_at`, NULL when either is NULL. */
  function Elapsed(c: Challenge): Option<int> {
    if c.startedAt.Some? && c.submittedAt.Some? then Some(c.submittedAt.value - c.startedAt.value) else None
  }

  /** The `submitted_at - started_at` column. */
  function ElapsedColumn(cs: seq<Challenge>): (r: seq<Option<int>>)
    ensures |r| == |cs| && forall i :: 0 <= i < |cs| ==> r[i] == Elapsed(cs[i])
  {
    seq(|cs|, i requires 0 <= i < |cs| => Elapsed(cs[i]))
  }

  /** The `challenges` table: ascending ids below the next serial value, and well-formed rows. */
  predicate ChallengeTable(cs: seq<Challenge>, nextId: int) {
    Ascending(cs) && forall c :: c in cs ==> c.id < nextId && WellFormed(c)
  }

  /** The `games` table: keyed by id, ids below the next serial value. */
  predicate GameTable(games: map<int, Game>, nextId: int) {
    forall id :: id in games ==> games[id].id == id && id < nextId
  }

  /** The foreign key `challenges.game_id → games.id`: every challenge belongs to a stored game. */
  predicate ChallengesOfGames(cs: seq<Challenge>, games: map<int, Game>) {
    forall c :: c in cs ==> c.gameId in games
  }

  /** The `her2_cores` table: keyed by id. */
  predicate CoreTable(cores: map<int, Her2Core>) {
    forall id :: id in cores ==> cores[id].id == id
  }

  /** The database the state-changing endpoints work on. `nextGameId` and
      `nextChallengeId` are the tables' serial sequences. */
  class Database {
    var games: map<int, Game>
    var challenges: seq<Challenge>
    var cores: map<int, Her2Core>
    var nextGameId: int
    var nextChallengeId: int

    ghost predicate Valid()
      reads this
    {
      && ChallengeTable(challenges, nextChallengeId) && GameTable(games, nextGameId) && CoreTable(cores)
      && ChallengesOfGames(challenges, games)
    }

    constructor (cores: map<int, Her2Core>)
      requires CoreTable(cores)
      ensures Valid()
      ensures this.cores == cores && games == map[] && challenges == []
    {
      this.cores := cores;
      games := map[];
      challenges := [];
      nextGameId := 1;
      nextChallengeId := 1;
    }
  }
}
