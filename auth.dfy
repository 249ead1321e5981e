/**
 * The client's session: four string entries kept in the browser's session
 * storage, read and written by key.
 */
module Auth {
  import opened Wrappers
  import opened Text

  const UserIdKey := "user_id"
  const UsernameKey := "username"
  const EmailKey := "email"
  const GameModeKey := "gameMode"

  const SessionKeys: set<string> := {UserIdKey, UsernameKey, EmailKey, GameModeKey}

  /** `getItem`: the stored value, or nothing (`null`). */
  function Get(items: map<string, string>, key: string): (v: Option<string>)
    ensures v.Some? <==> key in items
    ensures v.Some? ==> v.value == items[key]
  {
    if key in items then Some(items[key]) else None
  }

  /** `isAuthenticated`: a user id is stored. */
  predicate Authenticated(items: map<string, string>) {
    Get(items, UserIdKey).Some?
  }

  /** `isAdmin`: a stored user id ending in "admin". */
  predicate Admin(items: map<string, string>) {
    match Get(items, UserIdKey)
    case None => false
    case Some(id) => EndsWith(id, "admin")
  }

  /** The storage after `clearSession`: the four session keys removed. */
  function Cleared(items: map<string, string>): (r: map<string, string>)
    ensures forall k :: k in r <==> k in items && k !in SessionKeys
    ensures forall k :: k in r ==> r[k] == items[k]
  {
    items - SessionKeys
  }

  /** Reading a key just written gives the value written; every other key reads as before. */
  lemma GetAfterSet(items: map<string, string>, key: string, value: string, other: string)
    ensures Get(items[key := value], key) == Some(value)
    ensures other != key ==> Get(items[key := value], other) == Get(items, other)
  {
  }

  /** An administrator is always authenticated; the converse fails for ordinary ids. */
  lemma AdminIsAuthenticated(items: map<string, string>)
    ensures Admin(items) ==> Authenticated(items)
    ensures Admin(items) <==> Authenticated(items) && EndsWith(items[UserIdKey], "admin")
  {
  }

  /** After clearing, every getter reads nothing and nobody is authenticated; clearing twice is clearing once. */
  lemma ClearedSession(items: map<string, string>)
    ensures forall k :: k in SessionKeys ==> Get(Cleared(items), k).None?
    ensures !Authenticated(Cleared(items)) && !Admin(Cleared(items))
    ensures Cleared(Cleared(items)) == Cleared(items)
  {
  }

  /** The browser's session storage. Other pages may keep other keys in it. */
  class SessionStore {
    var items: map<string, string>

    constructor (items: map<string, string>)
      ensures this.items == items
    {
      this.items := items;
    }

    function UserId(): Option<string> reads this { Get(items, UserIdKey) }
    function Username(): Option<string> reads this { Get(items, UsernameKey) }
    function Email(): Option<string> reads this { Get(items, EmailKey) }
    function GameMode(): Option<string> reads this { Get(items, GameModeKey) }

    method SetUserId(userId: string)
      modifies this
      ensures items == old(items)[UserIdKey := userId]
    {
      items := items[UserIdKey := userId];
    }

    method SetUsername(username: string)
      modifies this
      ensures items == old(items)[UsernameKey := username]
    {
      items := items[UsernameKey := username];
    }

    method SetEmail(email: string)
      modifies this
      ensures items == old(items)[EmailKey := email]
    {
      items := items[EmailKey := email];
    }

    method SetGameMode(mode: string)
      modifies this
      ensures items == old(items)[GameModeKey := mode]
    {
      items := items[GameModeKey := mode];
    }

    method ClearSession()
      modifies this
      ensures items == Cleared(old(items))
    {
      items := items - {UserIdKey};
      items := items - {UsernameKey};
      items := items - {EmailKey};
      items := items - {GameModeKey};
    }

    method IsAuthenticated() returns (b: bool)
      ensures b <==> Authenticated(items)
    {
      b := UserIdKey in items;
    }

    method IsAdmin() returns (b: bool)
      ensures b <==> Admin(items)
    {
      var id := UserId();
      b := id.Some? && id.value != "" && EndsWith(id.value, "admin");
    }
  }
}
