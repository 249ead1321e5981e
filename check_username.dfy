/**
 * `GET /check-username/:user_id`: whether a user id has a username. Nothing
 * is written.
 */
module CheckUsername {
  import opened Wrappers
  import opened Records

  datatype Reply = Reply(status: int, hasUsername: bool, username: Option<string>)

  const ServerErrorHint := "Server error checking user_id"

  /** The handler. `queryFails` is a database failure other than "no such row". */
  function CheckUsername(users: map<string, Option<string>>, userId: string, queryFails: bool): (r: Reply)
    ensures r.status == StatusOk <==> !queryFails
    ensures r.status != StatusOk ==> r == Reply(StatusServerError, false, Some(ServerErrorHint))
    ensures r.status == StatusOk ==> r.hasUsername == (userId in users && users[userId].Some?)
    ensures r.status == StatusOk ==> r.username == if userId in users then users[userId] else None
  {
    if queryFails then Reply(StatusServerError, false, Some(ServerErrorHint))
    else if userId in users then Reply(StatusOk, users[userId].Some?, users[userId])
    else Reply(StatusOk, false, None)
  }

  /** On success, `has_username` holds exactly when a username is returned. */
  lemma HasUsernameIffReturned(users: map<string, Option<string>>, userId: string)
    ensures var r := CheckUsername(users, userId, false);
      r.hasUsername <==> r.username.Some?
  {
  }
}
