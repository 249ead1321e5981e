/**
 * `GET /challenges/:id/core`: serve the image of a challenge's core. Apart
 * from the image itself, the one effect is on the challenge row: the first
 * successful fetch records when the challenge was started, and later fetches
 * leave that time alone.
 */
module ChallengeCore {
  import opened Wrappers
  import opened Records

  /** The row after a fetch of challenge `id` at `now`: `started_at` is set only if it was NULL. */
  function StampRow(c: Challenge, id: int, now: int): (r: Challenge)
    ensures r.id == c.id && r.gameId == c.gameId && r.coreId == c.coreId
    ensures r.guess == c.guess && r.submittedAt == c.submittedAt && r.points == c.points
    ensures r.startedAt == if c.id == id && c.startedAt.None? then Some(now) else c.startedAt
  {
    if c.id == id && c.startedAt.None? then c.(startedAt := Some(now)) else c
  }

  /** The table after `update challenges set started_at = now where id = $1 and started_at is null`. */
  function Stamp(cs: seq<Challenge>, id: int, now: int): (r: seq<Challenge>)
    ensures |r| == |cs| && forall i :: 0 <= i < |cs| ==> r[i] == StampRow(cs[i], id, now)
  {
    if cs == [] then [] else [StampRow(cs[0], id, now)] + Stamp(cs[1..], id, now)
  }

  /** A started challenge keeps its start time: stamping twice is stamping once. */
  lemma StampIdempotent(cs: seq<Challenge>, id: int, now: int, later: int)
    ensures Stamp(Stamp(cs, id, now), id, later) == Stamp(cs, id, now)
  {
    var once := Stamp(cs, id, now);
    assert forall i :: 0 <= i < |cs| ==> Stamp(once, id, later)[i] == once[i];
  }

  /** Only the requested challenge may change; every other row stays as it was. */
  lemma StampTouchesOnlyRequested(cs: seq<Challenge>, id: int, now: int)
    ensures forall i :: 0 <= i < |cs| && cs[i].id != id ==> Stamp(cs, id, now)[i] == cs[i]
    ensures forall i :: 0 <= i < |cs| && cs[i].startedAt.Some? ==> Stamp(cs, id, now)[i] == cs[i]
  {
  }

  /** After a fetch the requested challenge, if present, has a start time, and the time of an earlier
      fetch wins over `now`. */
  lemma StampedRowStarted(cs: seq<Challenge>, i: int, now: int)
    requires 0 <= i < |cs|
    ensures Stamp(cs, cs[i].id, now)[i].startedAt == Some(cs[i].startedAt.GetOr(now))
  {
  }

  /** Stamping keeps the table's order and its row invariants. */
  lemma StampKeepsTable(cs: seq<Challenge>, id: int, now: int, nextId: int)
    requires ChallengeTable(cs, nextId)
    ensures ChallengeTable(Stamp(cs, id, now), nextId)
  {
    var r := Stamp(cs, id, now);
    forall x | x in r ensures x.id < nextId && WellFormed(x) {
      StampedRow(cs, id, now, x);
    }
  }

  /** Every row of the stamped table is the stamped version of an old row. */
  lemma StampedRow(cs: seq<Challenge>, id: int, now: int, x: Challenge)
    requires x in Stamp(cs, id, now)
    ensures exists c :: c in cs && x == StampRow(c, id, now)
  {
    var r := Stamp(cs, id, now);
    var k :| 0 <= k < |r| && r[k] == x;
    assert cs[k] in cs;
  }

  /** The handler. `lookupFails` is a failure of the join query, `fileFails` a failure to open the core's
      image or read its size, and `stampFails` a failure of the update, which `unwrap` turns into a panic. */
  method GetChallengeCore(db: Database, challengeId: int, now: int,
                          lookupFails: bool, fileFails: bool, stampFails: bool) returns (outcome: Outcome)
    requires db.Valid()
    modifies db`challenges
    ensures db.Valid()
    ensures var found := Find(old(db.challenges), challengeId);
      outcome == (if lookupFails then Respond(StatusServerError)
        else if found.None? || found.value.coreId !in db.cores then Respond(StatusNotFound)
        else if fileFails then Respond(StatusServerError)
        else if stampFails then Panic
        else Respond(StatusOk))
    ensures db.challenges == if outcome == Respond(StatusOk) then Stamp(old(db.challenges), challengeId, now) else old(db.challenges)
  {
    if lookupFails {
      return Respond(StatusServerError);
    }
    var found := Find(db.challenges, challengeId);
    if found.None? || found.value.coreId !in db.cores {
      return Respond(StatusNotFound);
    }
    if fileFails {
      return Respond(StatusServerError);
    }
    if stampFails {
      return Panic;
    }
    StampKeepsTable(db.challenges, challengeId, now, db.nextChallengeId);
    db.challenges := Stamp(db.challenges, challengeId, now);
    return Respond(StatusOk);
  }

  /** An unknown challenge is answered with 404, and the table is left as it was. */
  lemma UnknownChallengeNotFound(cs: seq<Challenge>, challengeId: int, now: int)
    requires forall c :: c in cs ==> c.id != challengeId
    ensures Find(cs, challengeId).None?
    ensures Stamp(cs, challengeId, now) == cs
  {
  }
}
