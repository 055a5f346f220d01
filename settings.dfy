/**
 * The settings commands over the `user_settings` table, a key-value store per
 * user: rows are keyed by (user_id, key), so there is at most one value per
 * user and key. A failing statement is given by a fault parameter; the UUID of
 * a new row is a parameter.
 */
module SettingsCommands {
  import opened Wrappers
  import opened Db

  type Settings = map<(string, string), SettingRow>

  /** A write's result and the table it leaves. */
  datatype SettingsWritten = SettingsWritten(result: Result<Unit>, settings: Settings)

  /**
   * `get_setting`: the stored value, or none when there is no such row; any
   * failure of the query (`queryFails`) also reads as none, never as an error.
   */
  function GetSetting(settings: Settings, u: string, key: string, queryFails: bool): (r: Result<Option<string>>)
    ensures r.Ok?
    ensures r.value.Some? <==> !queryFails && (u, key) in settings
    ensures r.value.Some? ==> r.value.value == settings[(u, key)].value
  {
    if !queryFails && (u, key) in settings then Ok(Some(settings[(u, key)].value)) else Ok(None)
  }

  /** The primary keys in use. */
  function SettingIds(settings: Settings): set<string>
  {
    set k | k in settings :: settings[k].id
  }

  /**
   * `INSERT ... ON CONFLICT(user_id, key) DO UPDATE SET value = ?4`: an existing
   * row for (u, key) keeps its id and takes the new value; otherwise a row is
   * inserted under `id`, which fails if that id is taken.
   */
  function UpsertSetting(settings: Settings, u: string, key: string, value: string, id: string, fault: Option<string>)
    : (w: SettingsWritten)
    ensures w.result.Err? ==> w.settings == settings
    ensures w.result.Ok? <==> fault.None? && ((u, key) in settings || id !in SettingIds(settings))
    ensures w.result.Ok? ==> (u, key) in w.settings && w.settings[(u, key)].value == value
    ensures w.result.Ok? && (u, key) in settings ==> w.settings[(u, key)].id == settings[(u, key)].id
    ensures w.result.Ok? && (u, key) !in settings ==> w.settings[(u, key)].id == id
  {
    if fault.Some? then SettingsWritten(Err(fault.value), settings)
    else if (u, key) in settings then
      SettingsWritten(Ok(Unit), settings[(u, key) := settings[(u, key)].(value := value)])
    else if id in SettingIds(settings) then SettingsWritten(Err(UniqueViolation("user_settings", "id")), settings)
    else SettingsWritten(Ok(Unit), settings[(u, key) := SettingRow(id, value)])
  }

  /** `DELETE FROM user_settings WHERE user_id = ?1 AND key = ?2`: no matching row is not an error. */
  function RemoveSetting(settings: Settings, u: string, key: string, fault: Option<string>): (w: SettingsWritten)
    ensures w.result.Ok? <==> fault.None?
    ensures w.result.Err? ==> w.settings == settings
    ensures w.result.Ok? ==> w.settings.Keys == settings.Keys - {(u, key)}
    ensures forall k | k in w.settings :: k in settings && w.settings[k] == settings[k]
  {
    if fault.Some? then SettingsWritten(Err(fault.value), settings)
    else SettingsWritten(Ok(Unit), settings - {(u, key)})
  }

  /**
   * `get_all_settings`: the key-value map of user `u`; rows whose value cannot
   * be read as text (`unreadable` keys) are dropped; a failing query is an error.
   */
  function GetAllSettings(settings: Settings, u: string, unreadable: set<string>, fault: Option<string>)
    : (r: Result<map<string, string>>)
    ensures r.Err? <==> fault.Some?
    ensures r.Ok? ==> forall k :: k in r.value <==> (u, k) in settings && k !in unreadable
    ensures r.Ok? ==> forall k | k in r.value :: r.value[k] == settings[(u, k)].value
  {
    if fault.Some? then Err(fault.value)
    else Ok(map p | p in settings && p.0 == u && p.1 !in unreadable :: p.1 := settings[p].value)
  }

  method SetSetting(db: Database, u: string, key: string, value: string, id: string, fault: Option<string>)
    returns (r: Result<Unit>)
    modifies db`settings
    ensures SettingsWritten(r, db.settings) == UpsertSetting(old(db.settings), u, key, value, id, fault)
  {
    if fault.Some? {
      return Err(fault.value);
    }
    if (u, key) in db.settings {
      db.settings := db.settings[(u, key) := db.settings[(u, key)].(value := value)];
      return Ok(Unit);
    }
    if id in SettingIds(db.settings) {
      return Err(UniqueViolation("user_settings", "id"));
    }
    db.settings := db.settings[(u, key) := SettingRow(id, value)];
    r := Ok(Unit);
  }

  method DeleteSetting(db: Database, u: string, key: string, fault: Option<string>) returns (r: Result<Unit>)
    modifies db`settings
    ensures SettingsWritten(r, db.settings) == RemoveSetting(old(db.settings), u, key, fault)
  {
    if fault.Some? {
      return Err(fault.value);
    }
    db.settings := db.settings - {(u, key)};
    r := Ok(Unit);
  }

  // ---------------------------------------------------------------------------
  // Properties of the store
  // ---------------------------------------------------------------------------

  /** After a successful set, both reads see the new value; an overwrite keeps the row's id. */
  lemma SetThenGet(settings: Settings, u: string, key: string, value: string, id: string)
    requires (u, key) in settings || id !in SettingIds(settings)
    ensures var w := UpsertSetting(settings, u, key, value, id, None);
      w.result == Ok(Unit) &&
      GetSetting(w.settings, u, key, false) == Ok(Some(value)) &&
      GetAllSettings(w.settings, u, {}, None).value[key] == value
  {
  }

  /** Setting the same value twice leaves the table as setting it once. */
  lemma SetTwice(settings: Settings, u: string, key: string, value: string, id1: string, id2: string)
    requires (u, key) in settings || id1 !in SettingIds(settings)
    ensures var once := UpsertSetting(settings, u, key, value, id1, None).settings;
      UpsertSetting(once, u, key, value, id2, None) == SettingsWritten(Ok(Unit), once)
  {
    var once := UpsertSetting(settings, u, key, value, id1, None).settings;
    assert once[(u, key) := once[(u, key)].(value := value)] == once;
  }

  /** After a delete, the key reads as absent, and every other entry reads as before. */
  lemma DeleteThenGet(settings: Settings, u: string, key: string, u': string, key': string)
    ensures var w := RemoveSetting(settings, u, key, None);
      w.result == Ok(Unit) && GetSetting(w.settings, u, key, false) == Ok(None) &&
      ((u', key') != (u, key) ==> GetSetting(w.settings, u', key', false) == GetSetting(settings, u', key', false))
  {
  }

  /** An upsert adds at most its own (user, key) and leaves every other row as it was. */
  lemma UpsertIsLocal(settings: Settings, u: string, key: string, value: string, id: string, fault: Option<string>)
    ensures var w := UpsertSetting(settings, u, key, value, id, fault);
      w.settings.Keys == settings.Keys + (if w.result.Ok? then {(u, key)} else {}) &&
      forall k | k in settings && k != (u, key) :: w.settings[k] == settings[k]
  {
  }

  /** A set leaves every other (user, key) reading as before. */
  lemma SetIsLocal(settings: Settings, u: string, key: string, value: string, id: string, fault: Option<string>, u': string, key': string)
    requires (u', key') != (u, key)
    ensures GetSetting(UpsertSetting(settings, u, key, value, id, fault).settings, u', key', false) ==
      GetSetting(settings, u', key', false)
  {
  }

  /** With every row readable, the map of all settings agrees key by key with the single read. */
  lemma AllAgreesWithGet(settings: Settings, u: string, key: string)
    ensures var all := GetAllSettings(settings, u, {}, None).value;
      GetSetting(settings, u, key, false) == Ok(if key in all then Some(all[key]) else None)
  {
  }
}
