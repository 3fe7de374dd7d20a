/** The member-join handler (main.py:244-265): grants the guild's default role to a new member. */
module Events {
  import opened Wrappers
  import opened Guild
  import opened Numerals
  import opened Store

  /** What the join handler did; all but `Granted` leave the member's roles alone. */
  datatype JoinOutcome =
    | NoDefault       // no default configured
    | InvalidId       // `int(rid)` raised; the error is logged
    | RoleNotFound    // the configured role no longer exists
    | Blocked(role: Role)
    | Granted(role: Role)

  /** The decision of main.py:249-262 for a stored entry. */
  function JoinDecision(stored: StoredRole, bot: BotMember): (d: JoinOutcome)
    ensures d.Granted? <==> stored.Found? && BotMayManage(bot, stored.role)
    ensures d.Granted? || d.Blocked? ==> stored == Found(d.role)
  {
    match stored
    case Unset => NoDefault
    case Malformed => InvalidId
    case Missing => RoleNotFound
    case Found(role) => if BotBlocked(bot, role) then Blocked(role) else Granted(role)
  }

  /** `on_member_join(member)` for a member of guild `guildId`. */
  method OnMemberJoin(store: SettingsStore, guildId: GuildId, roles: GuildRoles, bot: BotMember, member: Member)
    returns (outcome: JoinOutcome)
    requires store.Valid()
    modifies store, member
    ensures store.Valid()
    ensures store.View() == Touched(old(store.View()), GuildKey(guildId))
    ensures outcome == JoinDecision(LookupDefault(DefaultOf(old(store.View()), GuildKey(guildId)), roles), bot)
    ensures member.roles == if outcome.Granted? then old(member.roles) + {outcome.role.id} else old(member.roles)
  {
    var g := store.GetGuildSettings(guildId);
    outcome := JoinDecision(LookupDefault(g.defaultRoleId, roles), bot);
    if outcome.Granted? {
      member.AddRole(outcome.role.id);
    }
  }

  /**
   * After `set-default` stored a role for the guild, a joining member is granted
   * that role exactly when it still exists and the bot may still manage it.
   */
  lemma JoinAfterSetDefault(s: Settings, guildId: GuildId, id: RoleId, roles: GuildRoles, bot: BotMember)
    ensures var key := GuildKey(guildId);
      var d := JoinDecision(LookupDefault(DefaultOf(WithDefault(s, key, Decimal(id)), key), roles), bot);
      && (d.Granted? <==> id in roles && BotMayManage(bot, Resolve(roles, id).value))
      && (d.Granted? ==> d.role.id == id)
      && (id !in roles ==> d == RoleNotFound)
  {
    LookupStoredId(id, roles);
  }

  /** After `clear-default`, a joining member is granted nothing. */
  lemma JoinAfterClearDefault(s: Settings, guildId: GuildId, roles: GuildRoles, bot: BotMember)
    ensures var key := GuildKey(guildId);
      JoinDecision(LookupDefault(DefaultOf(WithoutDefault(s, key), key), roles), bot) == NoDefault
  {
  }
}
