/**
 * The settings store (main.py:14-43): the process-wide document
 * `{"guilds": {<str(guild id)>: {"defaultRoleId": <str(role id)>?}}}`. Each guild's
 * record is a mutable object that `get_guild_settings` hands out and the commands
 * update in place.
 */
module Store {
  import opened Wrappers
  import opened Numerals
  import opened Guild

  type GuildId = nat

  /** `str(guild_id)`: the key of a guild's record. */
  function GuildKey(guildId: GuildId): string {
    Decimal(guildId)
  }

  /** The store as a value: each guild key with its record's `defaultRoleId` entry (None when absent). */
  type Settings = map<string, Option<string>>

  /** The settings after `setdefault(key, {})`: an empty record is added when the key is missing. */
  function Touched(s: Settings, key: string): (t: Settings)
    ensures t.Keys == s.Keys + {key}
    ensures forall k :: k in s ==> t[k] == s[k]
    ensures key !in s ==> t[key] == None
  {
    if key in s then s else s[key := None]
  }

  /** The settings after `set-default` stored `roleId` for `key`. */
  function WithDefault(s: Settings, key: string, roleId: string): (t: Settings)
    ensures t.Keys == s.Keys + {key} && t[key] == Some(roleId)
    ensures forall k :: k in s && k != key ==> t[k] == s[k]
  {
    Touched(s, key)[key := Some(roleId)]
  }

  /** The settings after `clear-default` popped `defaultRoleId` for `key`. */
  function WithoutDefault(s: Settings, key: string): (t: Settings)
    ensures t.Keys == s.Keys + {key} && t[key] == None
    ensures forall k :: k in s && k != key ==> t[k] == s[k]
  {
    Touched(s, key)[key := None]
  }

  /** `get_guild_settings(..).get("defaultRoleId")`. */
  function DefaultOf(s: Settings, key: string): Option<string> {
    if key in s then s[key] else None
  }

  /** What a stored `defaultRoleId` leads to: `if rid:` ... `int(rid)` ... `get_role`. */
  datatype StoredRole = Unset | Malformed | Missing | Found(role: Role)

  /**
   * main.py:202-204 and 249-253: an absent or empty entry is unset; a string
   * `int` rejects is malformed; otherwise the role with that id, if it exists.
   */
  function LookupDefault(rid: Option<string>, roles: GuildRoles): StoredRole {
    if rid.None? || rid.value == "" then Unset
    else
      match ParseDecimal(rid.value)
      case None => Malformed
      case Some(id) =>
        match Resolve(roles, id)
        case None => Missing
        case Some(role) => Found(role)
  }

  /** An id stored by `set-default` reads back as that role, or as missing once the role is gone. */
  lemma LookupStoredId(id: RoleId, roles: GuildRoles)
    ensures LookupDefault(Some(Decimal(id)), roles) == if id in roles then Found(Resolve(roles, id).value) else Missing
  {
    ParseDecimalRoundTrip(id);
  }

  /** A guild's settings record. */
  class GuildSettings {
    var defaultRoleId: Option<string>

    constructor ()
      ensures defaultRoleId == None
    {
      defaultRoleId := None;
    }
  }

  /** The store object the handlers share. */
  class SettingsStore {
    var guilds: map<string, GuildSettings>

    /** Each guild has a record of its own. */
    ghost predicate Valid()
      reads this
    {
      forall k1, k2 :: k1 in guilds && k2 in guilds && k1 != k2 ==> guilds[k1] != guilds[k2]
    }

    ghost function View(): Settings
      reads this, guilds.Values
    {
      map k | k in guilds :: guilds[k].defaultRoleId
    }

    /** `load_data()` when the file is missing or unreadable: `{"guilds": {}}`. */
    constructor Empty()
      ensures Valid() && guilds == map[] && View() == map[]
    {
      guilds := map[];
    }

    /**
     * `get_guild_settings(guild_id)`: the guild's record, created empty on first use.
     * A record that already exists is returned as is, and no other record changes.
     */
    method GetGuildSettings(guildId: GuildId) returns (g: GuildSettings)
      requires Valid()
      modifies this
      ensures Valid()
      ensures GuildKey(guildId) in guilds && g == guilds[GuildKey(guildId)]
      ensures GuildKey(guildId) in old(guilds) ==> guilds == old(guilds)
      ensures GuildKey(guildId) !in old(guilds) ==> fresh(g) && guilds == old(guilds)[GuildKey(guildId) := g]
      ensures View() == Touched(old(View()), GuildKey(guildId))
    {
      var key := GuildKey(guildId);
      if key in guilds {
        g := guilds[key];
      } else {
        g := new GuildSettings();
        guilds := guilds[key := g];
      }
    }

    /** Two calls for the same guild hand out the same record, so a change made through one is seen through the other. */
    method GetGuildSettingsTwice(guildId: GuildId) returns (g1: GuildSettings, g2: GuildSettings)
      requires Valid()
      modifies this
      ensures Valid() && g1 == g2
      ensures View() == Touched(old(View()), GuildKey(guildId))
    {
      g1 := GetGuildSettings(guildId);
      g2 := GetGuildSettings(guildId);
    }
  }
}
