/**
 * The training form: a username is checked and stored, and the game starts
 * in the form's current mode.
 */
module PlayForm {
  import opened Wrappers
  import opened FormChecks
  import Auth

  /** The username the form starts with: the stored one, or empty. */
  function InitialUsername(items: map<string, string>): (u: string)
    ensures Auth.UsernameKey in items ==> u == items[Auth.UsernameKey]
    ensures Auth.UsernameKey !in items ==> u == ""
  {
    Auth.Get(items, Auth.UsernameKey).GetOr("")
  }

  /** The Play button is disabled in the finished and posttest modes. */
  predicate PlayDisabled(mode: string) {
    mode == "finished" || mode == "posttest"
  }

  function GamePath(mode: string): string {
    "/game?mode=" + mode
  }

  /** The form's mode, which starts as the page's mode and becomes training once a username is accepted. */
  class Form {
    var localGameMode: string

    constructor (mode: string)
      ensures localGameMode == mode
    {
      localGameMode := mode;
    }

    /** `validate`: the username's error; an accepted username switches the form to training. */
    method Validate(username: string) returns (error: Option<string>)
      modifies this
      ensures error == CheckField(username)
      ensures error.None? ==> localGameMode == "training"
      ensures error.Some? ==> localGameMode == old(localGameMode)
    {
      error := CheckField(username);
      if error.None? {
        localGameMode := "training";
      }
    }

    /** `submit`: store the username and the mode, then go to the game in that mode. */
    method Submit(store: Auth.SessionStore, username: string) returns (path: string)
      modifies store
      ensures store.items == old(store.items)[Auth.UsernameKey := username][Auth.GameModeKey := localGameMode]
      ensures path == GamePath(localGameMode)
    {
      store.SetUsername(username);
      store.SetGameMode(localGameMode);
      path := GamePath(localGameMode);
    }

    function CanPlay(): bool reads this {
      !PlayDisabled(localGameMode)
    }

    /** A submission as the form library runs it: `submit` is reached only when `validate` found no
        error, and then the game starts in training with the username stored. */
    method Play(store: Auth.SessionStore, username: string) returns (error: Option<string>, path: Option<string>)
      modifies this, store
      ensures error == CheckField(username)
      ensures error.Some? ==> path == None && store.items == old(store.items) && localGameMode == old(localGameMode)
      ensures error.None? ==>
        && path == Some("/game?mode=training")
        && store.items == old(store.items)[Auth.UsernameKey := username][Auth.GameModeKey := "training"]
        && CanPlay()
    {
      error := Validate(username);
      path := None;
      if error.None? {
        var p := Submit(store, username);
        path := Some(p);
        assert GamePath("training") == "/game?mode=training";
      }
    }
  }
}
