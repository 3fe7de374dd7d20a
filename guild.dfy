/**
 * The slice of Discord's guild state the bot consults: roles with their place in
 * the role hierarchy, guild-level permissions, the bot's own member, and the role
 * set of a member. Grants and revokes are updates of that role set; looking a role
 * up by id (`get_role` / `fetch_role`) is an optional lookup.
 */
module Guild {
  import opened Wrappers

  type RoleId = nat

  /**
   * A role as the bot sees it. `rank` is the role's place in the guild's role
   * hierarchy: a greater rank is higher. It stands for the key discord.py's
   * `Role.__lt__` orders roles by.
   */
  datatype Role = Role(id: RoleId, name: string, rank: int)

  /** What the guild knows about a role id. */
  datatype RoleInfo = RoleInfo(name: string, rank: int)

  type GuildRoles = map<RoleId, RoleInfo>

  /** `guild.get_role(id) or await guild.fetch_role(id)`: the role, or None when it no longer exists. */
  function Resolve(roles: GuildRoles, id: RoleId): (r: Option<Role>)
    ensures r.Some? <==> id in roles
    ensures r.Some? ==> r.value.id == id && r.value.name == roles[id].name && r.value.rank == roles[id].rank
  {
    if id in roles then Some(Role(id, roles[id].name, roles[id].rank)) else None
  }

  /** The guild-level permission bits the bot looks at. */
  datatype Permissions = Permissions(administrator: bool, manageGuild: bool, manageRoles: bool)

  /** `interaction.guild.me`: the bot's guild permissions and its highest role. */
  datatype BotMember = BotMember(permissions: Permissions, topRole: Role)

  /** `a < b` on roles: `a` is strictly lower in the hierarchy. */
  predicate Below(a: Role, b: Role) {
    a.rank < b.rank
  }

  /** The actor guard of `/rolemenu` and `/autorole set-default`. */
  predicate ActorMayManage(p: Permissions) {
    p.administrator || p.manageGuild || p.manageRoles
  }

  /** The guard the menu callback applies per role: "manage roles" and the role strictly below the bot's top role. */
  predicate BotMayManage(bot: BotMember, role: Role) {
    bot.permissions.manageRoles && Below(role, bot.topRole)
  }

  /**
   * The refusal test of `/rolemenu`, `set-default` and the join handler:
   * no "manage roles", or `role >= me.top_role`, which discord.py defines as
   * `not role < me.top_role`. It refuses exactly what the callback's guard does
   * not allow, and so refuses a role level with the bot's top role.
   */
  function BotBlocked(bot: BotMember, role: Role): (b: bool)
    ensures b <==> !BotMayManage(bot, role)
    ensures role.rank == bot.topRole.rank ==> b
  {
    !bot.permissions.manageRoles || !Below(role, bot.topRole)
  }

  /** A guild member. `roles` is the set of role ids the member holds in the guild. */
  class Member {
    var roles: set<RoleId>

    constructor (roles: set<RoleId>)
      ensures this.roles == roles
    {
      this.roles := roles;
    }

    /** `member.add_roles(role)`. */
    method AddRole(id: RoleId)
      modifies this
      ensures roles == old(roles) + {id}
    {
      roles := roles + {id};
    }

    /** `member.remove_roles(role)`. */
    method RemoveRole(id: RoleId)
      modifies this
      ensures roles == old(roles) - {id}
    {
      roles := roles - {id};
    }
  }
}
