/**
 * The frontend's profile store: the signed-in user (or none), a loading flag,
 * whether the first load has finished, and the last error. Service outcomes are
 * parameters; an action that calls the service also returns what it sent.
 */
module UserStore {
  import opened Wrappers
  import opened UserModel

  class UserState {
    var user: Option<User>
    var isLoading: bool
    var isInitialized: bool
    var error: Option<string>

    constructor()
      ensures user == None && !isLoading && !isInitialized && error == None
    {
      user, isLoading, isInitialized, error := None, false, false, None;
    }

    /**
     * `initialize`: once initialised, nothing happens; otherwise the stored
     * profile (possibly none) is loaded, and the store is initialised whether
     * or not the load succeeds.
     */
    method Initialize(loaded: Result<Option<User>>)
      modifies this
      ensures old(isInitialized) ==>
        user == old(user) && isLoading == old(isLoading) && isInitialized && error == old(error)
      ensures !old(isInitialized) ==> isInitialized && !isLoading
      ensures !old(isInitialized) && loaded.Ok? ==> user == loaded.value && error == None
      ensures !old(isInitialized) && loaded.Err? ==> user == old(user) && error == Some(loaded.error)
    {
      if isInitialized {
        return;
      }
      isLoading, error := true, None;
      match loaded {
        case Ok(u) =>
          user, isInitialized, isLoading := u, true, false;
        case Err(e) =>
          error, isLoading, isInitialized := Some(e), false, true;
      }
    }

    /** `fetchUser`: reloads the profile; the initialised flag is untouched. */
    method FetchUser(loaded: Result<Option<User>>)
      modifies this
      ensures isInitialized == old(isInitialized) && !isLoading
      ensures loaded.Ok? ==> user == loaded.value && error == None
      ensures loaded.Err? ==> user == old(user) && error == Some(loaded.error)
    {
      isLoading, error := true, None;
      match loaded {
        case Ok(u) =>
          user, isLoading := u, false;
        case Err(e) =>
          error, isLoading := Some(e), false;
      }
    }

    /** `createUser`: the created profile becomes the user; a failure is recorded and rethrown. */
    method CreateUser(request: CreateUserRequest, created: Result<User>) returns (r: Result<Unit>)
      modifies this
      ensures isInitialized == old(isInitialized) && !isLoading
      ensures created.Ok? ==> r == Ok(Unit) && user == Some(created.value) && error == None
      ensures created.Err? ==> r == Err(created.error) && user == old(user) && error == Some(created.error)
    {
      isLoading, error := true, None;
      match created {
        case Ok(u) =>
          user, isLoading := Some(u), false;
          r := Ok(Unit);
        case Err(e) =>
          error, isLoading := Some(e), false;
          r := Err(e);
      }
    }

    /**
     * `updateUser`: without a user the error becomes "No user found", no call is
     * made and the promise resolves; otherwise the returned profile replaces the
     * user, and a failure is recorded and rethrown.
     */
    method UpdateUser(request: UpdateUserRequest, updated: Result<User>)
      returns (r: Result<Unit>, sent: Option<(string, UpdateUserRequest)>)
      modifies this
      ensures isInitialized == old(isInitialized)
      ensures old(user).None? ==> r == Ok(Unit) && sent == None
      ensures old(user).None? ==> user == None && isLoading == old(isLoading) && error == Some("No user found")
      ensures old(user).Some? ==> sent == Some((old(user).value.id, request)) && !isLoading
      ensures old(user).Some? && updated.Ok? ==> r == Ok(Unit) && user == Some(updated.value) && error == None
      ensures old(user).Some? && updated.Err? ==>
        r == Err(updated.error) && user == old(user) && error == Some(updated.error)
    {
      if user.None? {
        error := Some("No user found");
        return Ok(Unit), None;
      }
      sent := Some((user.value.id, request));
      isLoading, error := true, None;
      match updated {
        case Ok(u) =>
          user, isLoading := Some(u), false;
          r := Ok(Unit);
        case Err(e) =>
          error, isLoading := Some(e), false;
          r := Err(e);
      }
    }

    /**
     * `logout`: without a user nothing happens; otherwise the profile is deleted,
     * after which there is no user and the store counts as initialised.
     */
    method Logout(deleted: Result<Unit>) returns (r: Result<Unit>, sent: Option<string>)
      modifies this
      ensures old(user).None? ==> r == Ok(Unit) && sent == None
      ensures old(user).None? ==>
        user == None && isLoading == old(isLoading) && isInitialized == old(isInitialized) && error == old(error)
      ensures old(user).Some? ==> sent == Some(old(user).value.id) && r == deleted && !isLoading
      ensures old(user).Some? && deleted.Ok? ==> user == None && isInitialized && error == None
      ensures old(user).Some? && deleted.Err? ==>
        user == old(user) && isInitialized == old(isInitialized) && error == Some(deleted.error)
    {
      if user.None? {
        return Ok(Unit), None;
      }
      sent := Some(user.value.id);
      isLoading, error := true, None;
      match deleted {
        case Ok(_) =>
          user, isLoading, isInitialized := None, false, true;
        case Err(e) =>
          error, isLoading := Some(e), false;
      }
      r := deleted;
    }

    method ClearError()
      modifies this
      ensures error == None
      ensures user == old(user) && isLoading == old(isLoading) && isInitialized == old(isInitialized)
    {
      error := None;
    }
  }
}
