/**
 * The `registered_users` table: each user id, with the username chosen for it
 * once one has been chosen. User ids are unique, so inserting an id that is
 * already present fails.
 */
module Users {
  import opened Wrappers

  class Registry {
    var users: map<string, Option<string>>

    constructor (users: map<string, Option<string>>)
      ensures this.users == users
    {
      this.users := users;
    }
  }
}
