/**
 * `GET /games/:id/current-challenge`: how far a game has got. The game's
 * challenges (those whose core exists) are counted, the answered ones are
 * counted, and the first unanswered one in id order is the current challenge.
 * Nothing is written.
 */
module CurrentChallenge {
  import opened Wrappers
  import opened Records

  datatype Progress = Progress(id: Option<int>, completedChallenges: int, totalChallenges: int)

  datatype Reply = Status(code: int) | Found(progress: Progress)

  /** `challenges ⋈ her2_cores` filtered to one game, in id order. */
  function JoinedOfGame(cs: seq<Challenge>, cores: map<int, Her2Core>, gameId: int): (r: seq<Challenge>)
    ensures |r| <= |cs|
    ensures forall c :: c in r <==> c in cs && c.gameId == gameId && c.coreId in cores
    ensures Ascending(cs) ==> Ascending(r)
  {
    if cs == [] then []
    else (if cs[0].gameId == gameId && cs[0].coreId in cores then [cs[0]] else []) + JoinedOfGame(cs[1..], cores, gameId)
  }

  /** The number of challenges with a guess. */
  function CountAnswered(cs: seq<Challenge>): (n: nat)
    ensures n <= |cs|
    ensures n == |cs| <==> forall i :: 0 <= i < |cs| ==> cs[i].guess.Some?
    ensures n == 0 <==> forall i :: 0 <= i < |cs| ==> cs[i].guess.None?
  {
    if cs == [] then 0 else (if cs[0].guess.Some? then 1 else 0) + CountAnswered(cs[1..])
  }

  /** The positions of the challenges with a guess. */
  ghost function AnsweredPositions(cs: seq<Challenge>): set<int> {
    set i | 0 <= i < |cs| && cs[i].guess.Some?
  }

  /** Counting splits over concatenation. */
  lemma {:induction false} CountAnsweredAppend(a: seq<Challenge>, b: seq<Challenge>)
    ensures CountAnswered(a + b) == CountAnswered(a) + CountAnswered(b)
  {
    if a == [] {
      assert a + b == b;
    } else {
      assert (a + b)[0] == a[0];
      assert (a + b)[1..] == a[1..] + b;
      CountAnsweredAppend(a[1..], b);
    }
  }

  /** The count is the number of positions holding an answered challenge. */
  lemma {:induction false} CountIsAnsweredPositions(cs: seq<Challenge>)
    ensures CountAnswered(cs) == |AnsweredPositions(cs)|
  {
    if cs == [] {
      assert AnsweredPositions(cs) == {};
    } else {
      var init, last := cs[..|cs| - 1], cs[|cs| - 1];
      assert cs == init + [last];
      CountIsAnsweredPositions(init);
      CountAnsweredAppend(init, [last]);
      assert [last][1..] == [];
      assert AnsweredPositions(cs) == AnsweredPositions(init) + (if last.guess.Some? then {|cs| - 1} else {});
      assert |cs| - 1 !in AnsweredPositions(init);
    }
  }

  /** The id of the first challenge without a guess, if any. */
  function FirstUnanswered(cs: seq<Challenge>): (r: Option<int>)
    ensures r.Some? ==> exists i :: 0 <= i < |cs| && cs[i].id == r.value && cs[i].guess.None?
  {
    if cs == [] then None else if cs[0].guess.None? then Some(cs[0].id) else FirstUnanswered(cs[1..])
  }

  /** The handler. `dbError` is the failure of the join query. */
  function GetCurrentChallenge(cs: seq<Challenge>, cores: map<int, Her2Core>, gameId: int, dbError: bool): (r: Reply)
    ensures r.Status? <==> dbError
    ensures r.Status? ==> r.code == StatusServerError
    ensures r.Found? ==> 0 <= r.progress.completedChallenges <= r.progress.totalChallenges
    ensures !dbError ==> var rows := JoinedOfGame(cs, cores, gameId);
      r == Found(Progress(FirstUnanswered(rows), CountAnswered(rows), |rows|))
  {
    if dbError then Status(StatusServerError)
    else
      var rows := JoinedOfGame(cs, cores, gameId);
      Found(Progress(FirstUnanswered(rows), CountAnswered(rows), |rows|))
  }

  /** There is no current challenge exactly when every challenge is answered. */
  lemma {:induction false} NoneIffAllAnswered(cs: seq<Challenge>)
    ensures FirstUnanswered(cs).None? <==> CountAnswered(cs) == |cs|
  {
    if cs != [] {
      NoneIffAllAnswered(cs[1..]);
      assert CountAnswered(cs[1..]) <= |cs| - 1;
    }
  }

  /** Every challenge before position `i` has a guess. */
  predicate AnsweredBefore(cs: seq<Challenge>, i: int)
    requires 0 <= i <= |cs|
  {
    forall k :: 0 <= k < i ==> cs[k].guess.Some?
  }

  /** The current challenge is the unanswered one that comes first: every earlier one is answered. */
  lemma {:induction false} FirstUnansweredIsFirst(cs: seq<Challenge>)
    requires FirstUnanswered(cs).Some?
    ensures exists i :: 0 <= i < |cs| && cs[i].id == FirstUnanswered(cs).value && cs[i].guess.None? && AnsweredBefore(cs, i)
  {
    if cs[0].guess.Some? {
      FirstUnansweredIsFirst(cs[1..]);
      var i :| 0 <= i < |cs[1..]| && cs[1..][i].id == FirstUnanswered(cs[1..]).value && cs[1..][i].guess.None? && AnsweredBefore(cs[1..], i);
      assert cs[i + 1] == cs[1..][i];
      assert forall k :: 0 < k < i + 1 ==> cs[k] == cs[1..][k - 1];
      assert AnsweredBefore(cs, i + 1);
    } else {
      assert cs[0].id == FirstUnanswered(cs).value && AnsweredBefore(cs, 0);
    }
  }

  /** In id order, a game with an unanswered challenge has a current challenge, and it has the lowest id
      among the game's unanswered challenges. */
  lemma CurrentIsLowestUnanswered(cs: seq<Challenge>, cores: map<int, Her2Core>, gameId: int, c: Challenge)
    requires Ascending(cs)
    requires c in cs && c.gameId == gameId && c.coreId in cores && c.guess.None?
    ensures GetCurrentChallenge(cs, cores, gameId, false).progress.id.Some?
    ensures GetCurrentChallenge(cs, cores, gameId, false).progress.id.value <= c.id
  {
    var rows := JoinedOfGame(cs, cores, gameId);
    assert GetCurrentChallenge(cs, cores, gameId, false).progress.id == FirstUnanswered(rows);
    assert c in rows;
    var j :| 0 <= j < |rows| && rows[j] == c;
    assert CountAnswered(rows) != |rows| by {
      assert rows[j].guess.None?;
    }
    NoneIffAllAnswered(rows);
    FirstUnansweredIsFirst(rows);
    var i :| 0 <= i < |rows| && rows[i].id == FirstUnanswered(rows).value && rows[i].guess.None? && AnsweredBefore(rows, i);
    assert i <= j;
  }

  /** The progress reply reports completion exactly when no challenge is current. */
  lemma CompletedIffNoCurrent(cs: seq<Challenge>, cores: map<int, Her2Core>, gameId: int)
    ensures var p := GetCurrentChallenge(cs, cores, gameId, false).progress;
      p.id.None? <==> p.completedChallenges == p.totalChallenges
  {
    NoneIffAllAnswered(JoinedOfGame(cs, cores, gameId));
  }
}
