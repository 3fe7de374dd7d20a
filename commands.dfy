/**
 * The slash commands (main.py:106-213): `/rolemenu` and the `/autorole` group
 * `set-default`, `clear-default` and `show`. Each takes the shared settings store
 * as a parameter and returns the private reply it sends.
 */
module Commands {
  import opened Wrappers
  import opened Guild
  import opened Numerals
  import opened Store

  /** The name `show` reports for a configured role that no longer exists. */
  const UnknownName: string := "알 수 없음"

  /** The reply a command sends; the message texts themselves are not modelled. */
  datatype Reply =
    | ActorDenied                                 // "권한 부족: ..."
    | NoRoles                                     // "최소 1개 이상의 역할을 ..."
    | BotDenied(roleName: string)                 // the bot must sit above `roleName` and hold "manage roles"
    | MenuPosted(title: string, roles: seq<Role>) // an embed titled `title` with a `RoleSelect(roles)`
    | DefaultSet(roleName: string)
    | DefaultCleared
    | CurrentDefault(name: string)
    | NotConfigured
    | Failed                                      // "오류가 발생했습니다."

  /** `[r for r in slots if r]`: the given roles, in slot order. */
  function Present(slots: seq<Option<Role>>): (roles: seq<Role>)
    ensures |roles| <= |slots|
    ensures forall r :: r in roles <==> Some(r) in slots
    decreases |slots|
  {
    if slots == [] then []
    else (if slots[0].Some? then [slots[0].value] else []) + Present(slots[1..])
  }

  /** Filtering keeps order: the roles of two runs of slots are the roles of each, one after the other. */
  lemma {:induction false} PresentAppend(a: seq<Option<Role>>, b: seq<Option<Role>>)
    ensures Present(a + b) == Present(a) + Present(b)
    decreases |a|
  {
    if a == [] {
      assert a + b == b;
    } else {
      var head := if a[0].Some? then [a[0].value] else [];
      assert (a + b)[0] == a[0] && (a + b)[1..] == a[1..] + b;
      PresentAppend(a[1..], b);
      calc {
        Present(a + b);
        head + Present(a[1..] + b);
        head + (Present(a[1..]) + Present(b));
        (head + Present(a[1..])) + Present(b);
        Present(a) + Present(b);
      }
    }
  }

  /**
   * `/rolemenu title role1 .. role5`: posts the menu only when the actor may manage
   * roles, at least one role was given, and the bot may manage every given role;
   * otherwise it names the first role the bot may not manage, and posts nothing.
   */
  method RoleMenuCommand(actor: Permissions, bot: BotMember, title: string,
                         role1: Option<Role>, role2: Option<Role>, role3: Option<Role>,
                         role4: Option<Role>, role5: Option<Role>)
    returns (reply: Reply)
    ensures var roles := Present([role1, role2, role3, role4, role5]);
      && (reply == ActorDenied <==> !ActorMayManage(actor))
      && (reply == NoRoles <==> ActorMayManage(actor) && roles == [])
      && (reply.MenuPosted? <==> ActorMayManage(actor) && roles != [] && forall r :: r in roles ==> BotMayManage(bot, r))
      && (reply.MenuPosted? ==> reply.title == title && reply.roles == roles && 1 <= |roles| <= 5)
      && (reply.BotDenied? ==>
            && ActorMayManage(actor)
            && exists k :: 0 <= k < |roles| && reply.roleName == roles[k].name && BotBlocked(bot, roles[k])
                             && forall j :: 0 <= j < k ==> BotMayManage(bot, roles[j]))
      && (reply.ActorDenied? || reply.NoRoles? || reply.BotDenied? || reply.MenuPosted?)
  {
    if !ActorMayManage(actor) {
      return ActorDenied;
    }
    var roles := Present([role1, role2, role3, role4, role5]);
    if roles == [] {
      return NoRoles;
    }
    var i := 0;
    while i < |roles|
      invariant 0 <= i <= |roles|
      invariant forall j :: 0 <= j < i ==> BotMayManage(bot, roles[j])
    {
      if BotBlocked(bot, roles[i]) {
        return BotDenied(roles[i].name);
      }
      i := i + 1;
    }
    return MenuPosted(title, roles);
  }

  /** Discord always supplies `role1`, so `/rolemenu` never answers that no role was given. */
  lemma RequiredRoleMeansSomeRole(role1: Role, role2: Option<Role>, role3: Option<Role>, role4: Option<Role>, role5: Option<Role>)
    ensures Present([Some(role1), role2, role3, role4, role5]) != []
  {
    assert Some(role1) in [Some(role1), role2, role3, role4, role5];
  }

  /**
   * `/autorole set-default role`: stores `str(role.id)` as the guild's default
   * exactly when the actor guard and the bot guard both pass; otherwise the
   * store is unchanged.
   */
  method SetDefault(store: SettingsStore, actor: Permissions, bot: BotMember, guildId: GuildId, role: Role)
    returns (reply: Reply)
    requires store.Valid()
    modifies store, store.guilds.Values
    ensures store.Valid()
    ensures reply == if !ActorMayManage(actor) then ActorDenied
                     else if !BotMayManage(bot, role) then BotDenied(role.name)
                     else DefaultSet(role.name)
    ensures store.View() == if reply.DefaultSet? then WithDefault(old(store.View()), GuildKey(guildId), Decimal(role.id))
                            else old(store.View())
  {
    if !ActorMayManage(actor) {
      return ActorDenied;
    }
    if BotBlocked(bot, role) {
      return BotDenied(role.name);
    }
    var g := store.GetGuildSettings(guildId);
    g.defaultRoleId := Some(Decimal(role.id));
    reply := DefaultSet(role.name);
  }

  /** `/autorole clear-default`: removes the guild's default, whoever asks. */
  method ClearDefault(store: SettingsStore, guildId: GuildId) returns (reply: Reply)
    requires store.Valid()
    modifies store, store.guilds.Values
    ensures store.Valid()
    ensures reply == DefaultCleared
    ensures store.View() == WithoutDefault(old(store.View()), GuildKey(guildId))
  {
    var g := store.GetGuildSettings(guildId);
    g.defaultRoleId := None;
    reply := DefaultCleared;
  }

  /** What `show` answers for a stored entry. */
  function ShowReply(stored: StoredRole): Reply {
    match stored
    case Unset => NotConfigured
    case Malformed => Failed
    case Missing => CurrentDefault(UnknownName)
    case Found(role) => CurrentDefault(role.name)
  }

  /**
   * `/autorole show`: reports the guild's default role; the lookup also creates
   * the guild's empty record when it had none.
   */
  method Show(store: SettingsStore, guildId: GuildId, roles: GuildRoles) returns (reply: Reply)
    requires store.Valid()
    modifies store
    ensures store.Valid()
    ensures store.View() == Touched(old(store.View()), GuildKey(guildId))
    ensures reply == ShowReply(LookupDefault(DefaultOf(old(store.View()), GuildKey(guildId)), roles))
  {
    var g := store.GetGuildSettings(guildId);
    reply := ShowReply(LookupDefault(g.defaultRoleId, roles));
  }

  /** After `set-default role`, `show` reports that role's current name, or the unknown name once it is gone. */
  lemma ShowAfterSetDefault(s: Settings, guildId: GuildId, id: RoleId, roles: GuildRoles)
    ensures id in roles ==>
      ShowReply(LookupDefault(DefaultOf(WithDefault(s, GuildKey(guildId), Decimal(id)), GuildKey(guildId)), roles))
        == CurrentDefault(roles[id].name)
    ensures id !in roles ==>
      ShowReply(LookupDefault(DefaultOf(WithDefault(s, GuildKey(guildId), Decimal(id)), GuildKey(guildId)), roles))
        == CurrentDefault(UnknownName)
  {
    LookupStoredId(id, roles);
  }

  /** After `clear-default`, `show` reports that no default is configured. */
  lemma ShowAfterClearDefault(s: Settings, guildId: GuildId, roles: GuildRoles)
    ensures var key := GuildKey(guildId);
      ShowReply(LookupDefault(DefaultOf(WithoutDefault(s, key), key), roles)) == NotConfigured
  {
  }

  /** Clearing twice leaves what clearing once left. */
  lemma ClearDefaultIdempotent(s: Settings, guildId: GuildId)
    ensures var key := GuildKey(guildId); WithoutDefault(WithoutDefault(s, key), key) == WithoutDefault(s, key)
  {
  }

  /** Setting, clearing or reading one guild's default leaves every other guild's default as it was. */
  lemma OtherGuildsUnchanged(s: Settings, a: GuildId, b: GuildId, rid: string)
    requires a != b
    ensures DefaultOf(WithDefault(s, GuildKey(a), rid), GuildKey(b)) == DefaultOf(s, GuildKey(b))
    ensures DefaultOf(WithoutDefault(s, GuildKey(a)), GuildKey(b)) == DefaultOf(s, GuildKey(b))
    ensures DefaultOf(Touched(s, GuildKey(a)), GuildKey(b)) == DefaultOf(s, GuildKey(b))
  {
    if GuildKey(a) == GuildKey(b) {
      DecimalInjective(a, b);
    }
  }
}
