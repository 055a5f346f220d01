/**
 * The frontend's settings cache: the signed-in user's key-value settings, with a
 * loading flag and the last error. Service outcomes and the signed-in user are
 * parameters.
 */
module SettingsStore {
  import opened Wrappers
  import opened UserModel
  import SettingsCommands

  class SettingsState {
    var settings: map<string, string>
    var isLoading: bool
    var error: Option<string>

    constructor()
      ensures settings == map[] && !isLoading && error == None
    {
      settings, isLoading, error := map[], false, None;
    }

    /** `fetchSettings`: the fetched map replaces the cache. No user: nothing happens. */
    method FetchSettings(user: Option<User>, fetched: Result<map<string, string>>)
      modifies this
      ensures user.None? ==> settings == old(settings) && isLoading == old(isLoading) && error == old(error)
      ensures user.Some? && fetched.Ok? ==> settings == fetched.value && !isLoading && error == None
      ensures user.Some? && fetched.Err? ==> settings == old(settings) && !isLoading && error == Some(fetched.error)
    {
      if user.None? {
        return;
      }
      isLoading, error := true, None;
      match fetched {
        case Ok(got) =>
          settings, isLoading := got, false;
        case Err(e) =>
          error, isLoading := Some(e), false;
      }
    }

    /** `getSetting(key)`: `settings[key]`, undefined when the key is absent. */
    function GetSetting(key: string): (r: Option<string>)
      reads this
      ensures r.Some? <==> key in settings
      ensures r.Some? ==> r.value == settings[key]
    {
      if key in settings then Some(settings[key]) else None
    }

    /**
     * `setSetting`: throws "No user found" without a user; once the service
     * succeeds, the key maps to the value and no other key changes. A failure is
     * recorded and rethrown. The loading flag is not touched.
     */
    method SetSetting(user: Option<User>, key: string, value: string, saved: Result<Unit>) returns (r: Result<Unit>)
      modifies this
      ensures isLoading == old(isLoading)
      ensures user.None? ==> r == Err("No user found") && settings == old(settings) && error == old(error)
      ensures user.Some? ==> r == saved
      ensures user.Some? && saved.Ok? ==> settings == old(settings)[key := value] && error == old(error)
      ensures user.Some? && saved.Err? ==> settings == old(settings) && error == Some(saved.error)
    {
      if user.None? {
        return Err("No user found");
      }
      match saved {
        case Ok(_) => settings := settings[key := value];
        case Err(e) => error := Some(e);
      }
      r := saved;
    }

    /** `deleteSetting`: as `setSetting`, removing the key instead. */
    method DeleteSetting(user: Option<User>, key: string, deleted: Result<Unit>) returns (r: Result<Unit>)
      modifies this
      ensures isLoading == old(isLoading)
      ensures user.None? ==> r == Err("No user found") && settings == old(settings) && error == old(error)
      ensures user.Some? ==> r == deleted
      ensures user.Some? && deleted.Ok? ==> settings == old(settings) - {key} && error == old(error)
      ensures user.Some? && deleted.Err? ==> settings == old(settings) && error == Some(deleted.error)
    {
      if user.None? {
        return Err("No user found");
      }
      match deleted {
        case Ok(_) => settings := settings - {key};
        case Err(e) => error := Some(e);
      }
      r := deleted;
    }

    method ClearError()
      modifies this
      ensures error == None && settings == old(settings) && isLoading == old(isLoading)
    {
      error := None;
    }
  }

  // ---------------------------------------------------------------------------
  // The cache against the backend table
  // ---------------------------------------------------------------------------

  /** The cache holds, key by key, user `u`'s rows of the table. */
  ghost predicate Coherent(cache: map<string, string>, table: SettingsCommands.Settings, u: string)
  {
    forall k :: (k in cache <==> (u, k) in table) && (k in cache ==> cache[k] == table[(u, k)].value)
  }

  /** Coherence is exactly agreement with what `get_all_settings` returns when every row is readable. */
  lemma CoherentIsGetAll(cache: map<string, string>, table: SettingsCommands.Settings, u: string)
    ensures Coherent(cache, table, u) <==> cache == SettingsCommands.GetAllSettings(table, u, {}, None).value
  {
  }

  /** A cache that agrees with the table still agrees after a successful set on both sides. */
  lemma SetKeepsCoherent(
    cache: map<string, string>, table: SettingsCommands.Settings, u: string, key: string, value: string, id: string)
    requires Coherent(cache, table, u)
    requires SettingsCommands.UpsertSetting(table, u, key, value, id, None).result.Ok?
    ensures Coherent(cache[key := value], SettingsCommands.UpsertSetting(table, u, key, value, id, None).settings, u)
  {
    var w := SettingsCommands.UpsertSetting(table, u, key, value, id, None);
    SettingsCommands.UpsertIsLocal(table, u, key, value, id, None);
    forall k
      ensures (k in cache[key := value] <==> (u, k) in w.settings) &&
        (k in cache[key := value] ==> cache[key := value][k] == w.settings[(u, k)].value)
    {
      if k != key {
        assert (u, k) in w.settings <==> (u, k) in table;
      }
    }
  }

  /** A cache that agrees with the table still agrees after a successful delete on both sides. */
  lemma DeleteKeepsCoherent(cache: map<string, string>, table: SettingsCommands.Settings, u: string, key: string)
    requires Coherent(cache, table, u)
    ensures Coherent(cache - {key}, SettingsCommands.RemoveSetting(table, u, key, None).settings, u)
  {
    var w := SettingsCommands.RemoveSetting(table, u, key, None);
    forall k
      ensures (k in cache - {key} <==> (u, k) in w.settings) &&
        (k in cache - {key} ==> (cache - {key})[k] == w.settings[(u, k)].value)
    {
      if k != key {
        assert (u, k) in w.settings <==> (u, k) in table;
      }
    }
  }
}
