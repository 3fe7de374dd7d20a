# Role-menu bot: a Dafny model

This project models the logic of a Discord bot. The bot does two things. Administrators post a
message with a multi-select role menu, and members toggle their roles through it. New members
also get a per-guild default role when they join. Everything the bot does lives in `main.py`.
The model covers:

- **the role reconciler**: `RoleSelect.callback`. It walks the menu's candidate roles in order.
  It skips a role that no longer exists or that the bot may not manage. It grants each selected
  role the member lacks and revokes each unselected role the member holds. Then it replies with a
  one-line summary of the changes.
- **the permission guards**: the actor may manage roles (administrator, manage-guild or
  manage-roles); the bot may manage a role (manage-roles, and the role strictly below the bot's
  top role).
- **the menu builder**: one option per role, the label cut to 100 characters, the value `str(id)`,
  from zero to all options selectable.
- **the settings store**: a map from `str(guild id)` to a mutable per-guild record with an
  optional `defaultRoleId`, created on first use by `get_guild_settings`.
- **the commands and the join handler**: `/rolemenu`, `/autorole set-default`, `clear-default`
  and `show`, and `on_member_join`.

Modules, one per part of `main.py`:

| file | module | what it holds |
|---|---|---|
| `wrappers.dfy` | `Wrappers` | `Option` |
| `numerals.dfy` | `Numerals` | `str(n)` and `int(s)` on ids, with the round trip |
| `guild.dfy` | `Guild` | roles, ranks, permissions, the two guards, a member's role set |
| `reconcile.dfy` | `Reconcile` | the callback's loop as functions of its inputs, and the lemmas about it |
| `role_menu.dfy` | `RoleMenu` | menu options, the summary line, the `RoleSelect` class and its callback |
| `store.dfy` | `Store` | the settings document, its records, `get_guild_settings` |
| `commands.dfy` | `Commands` | `/rolemenu` and the `/autorole` group |
| `events.dfy` | `Events` | the member-join handler |

Modelling choices:

- **Member roles.** A member's roles are a set of ids (`Guild.Member.roles`). `add_roles` and
  `remove_roles` add an id to that set or remove it.
- **Role hierarchy.** A role's place in the hierarchy is an integer `rank`. `role < top` compares
  ranks. `role >= top` is its negation, which is how discord.py defines `>=` on roles.
- **Resolving a role.** `get_role(id) or fetch_role(id)` is a lookup in the guild's role map
  that may find nothing.
- **What `has_role` reads.** The callback fetches the `Member` object once, before the loop.
  `add_roles` and `remove_roles` do not refresh it. So every `has_role` test reads the member's
  roles as they were at the start (`held`), while the grants and revokes change the real role
  set one step at a time. `Reconcile.SnapshotAgreesWithLive` proves that this gives the same
  result as re-reading the roles after each change.
- **The settings store.** `Store.SettingsStore` is the shared store object. Each guild's record
  is its own `Store.GuildSettings` object. `get_guild_settings` hands out that same object on
  every call, and the commands update it in place, as the Python dict is updated.
  `SettingsStore.View()` gives the store's contents as a value.
- **Command replies.** Each reply is a variant of `Commands.Reply`. The Korean message texts of
  the commands are not modelled. The callback's summary line is modelled character for
  character.

Notes on what the code does:

- `clear-default` and `show` check no actor permission (main.py:185-213). Only `/rolemenu`
  and `set-default` do. So `Commands.ClearDefault` takes no actor.
- `show` and the join handler call `get_guild_settings`. That call creates an empty record
  for a guild that had none. The model's `Show` and `OnMemberJoin` do the same.
- `added` and `removed` never share a role id. They can share a name, because two roles may
  have the same name. `Reconcile.AddedRemovedDisjoint` states the claim for ids.

## Model

| member | source | states |
|---|---|---|
| `Numerals.Decimal` | main.py:60 | `str(id)` is a non-empty string of decimal digits, with no leading zero unless the id is 0 |
| `Numerals.ParseDecimal` | main.py:71 | `int(s)` on a non-empty string of ASCII digits is its decimal value; any other string is a failed parse |
| `Numerals.ParseDecimalRoundTrip` | main.py:71 | `int(str(id)) == id`: a candidate string read back by the callback resolves the role it was written for |
| `Numerals.DecimalInjective` | main.py:43 | distinct ids have distinct decimal strings, so distinct guilds have distinct store keys |
| `Guild.Below` | main.py:74 | `role < me.top_role`: the role's rank is strictly below the other role's rank |
| `Guild.ActorMayManage` | main.py:128 | the actor guard holds exactly when the actor has administrator, manage-guild or manage-roles |
| `Guild.BotMayManage` | main.py:74 | the callback's bot guard holds exactly when the bot has manage-roles and the role is strictly below the bot's top role |
| `Guild.Resolve` | main.py:71-73 | the lookup finds a role exactly when the id exists in the guild, and the role it finds has that id and the guild's name and rank for it |
| `Guild.BotBlocked` | main.py:137 | the `not manage_roles or role >= top_role` refusal holds exactly when the callback's guard `manage_roles and role < top_role` fails; a role level with the bot's top role is refused |
| `Guild.Member.AddRole` | main.py:81 | a grant adds the role id to the member's roles and changes nothing else |
| `Guild.Member.RemoveRole` | main.py:84 | a revoke removes the role id from the member's roles and changes nothing else |
| `Reconcile.Effective` | main.py:71-75 | a candidate is acted on only when it resolves to a role the bot may manage |
| `Reconcile.Selected` | main.py:78 | `should_have`: the candidate's decimal id string is among the submitted values |
| `Reconcile.Decide` | main.py:70-85 | a candidate's step changes something exactly when the role resolves, the bot may manage it, and its selection differs from the member's membership; a grant when selected and not held, a revoke when held and not selected |
| `Reconcile.Reconciled` | main.py:70-85 | the member's role set after the loop: each candidate in turn adds its role on a grant and removes it on a revoke |
| `Reconcile.Changed` | main.py:80-85 | the roles granted (or revoked) by the loop, appended in the order the loop meets them |
| `Reconcile.Granted` | main.py:80-82 | the roles whose names the loop appends to `added` |
| `Reconcile.Revoked` | main.py:83-85 | the roles whose names the loop appends to `removed` |
| `Reconcile.ReconciledMembership` | main.py:70-85 | after the loop, a candidate that resolves and that the bot may manage is held exactly when its option was submitted; every other role id, in or out of the candidate list, is held exactly when it was held before |
| `Reconcile.ChangedMembership` | main.py:77-85 | a role is in `added` (or `removed`) exactly when it is the role of a candidate whose step was a grant (or a revoke), so only manageable candidates are ever listed |
| `Reconcile.ChangedInCandidateOrder` | main.py:67-85 | `added` and `removed` list their roles in candidate-list order and miss none: each entry comes from a strictly later candidate position than the one before, and every granting (revoking) position is listed |
| `Reconcile.AddedRemovedDisjoint` | main.py:80-85 | no role id is both granted and revoked by one submission |
| `Reconcile.ReconcileIdempotent` | main.py:77-85 | submitting the same selection again on the resulting roles changes nothing and lists nothing |
| `Reconcile.NothingChanged` | main.py:77-85 | when every candidate's step does nothing, nothing is listed |
| `Reconcile.FreshMemberGetsSelection` | main.py:77-85 | a member holding no candidate, on a menu of manageable roles, is granted exactly the selected candidates and has nothing revoked |
| `Reconcile.NoneRevoked` | main.py:83-85 | when the member holds no candidate, nothing is revoked |
| `Reconcile.SnapshotAgreesWithLive` | main.py:77 | deciding from the roles held at the start gives the same roles as re-reading them after every change, even when a candidate id repeats |
| `Reconcile.UnchangedIffNothingReported` | main.py:80-85 | `added` and `removed` are both empty exactly when the member's roles are unchanged |
| `Reconcile.Names` | main.py:82 | the recorded names are the changed roles' names, one per role, in order |
| `RoleMenu.Truncate` | main.py:50 | `s[:100]` is a prefix of `s`: `s` itself when it has at most 100 characters, otherwise its first 100 characters |
| `RoleMenu.MenuOptions` | main.py:49-52 | one option per role, in order; each label is the role's name cut to its first 100 characters (the whole name when it fits); each description is `"역할: " + name` cut to 100 characters; each value is `str(id)` and reads back as the role's id |
| `RoleMenu.Join` | main.py:89-92 | `sep.join(parts)`: the parts in order with the separator between neighbours, "" for no parts |
| `RoleMenu.Summary` | main.py:87-92 | the reply is "변경 사항 없음." exactly when both lists are empty; otherwise it is the "추가: " part, the "제거: " part, or both joined by " \| ", each list joined by ", " |
| `RoleMenu.NoChangesIffRolesUnchanged` | main.py:87-92 | the callback answers "변경 사항 없음." exactly when the submission left the member's roles as they were |
| `RoleMenu.RoleSelect.constructor` | main.py:48-60 | the menu has one option per role, `min_values` 0, `max_values` the number of roles, and `role_ids` holds the options' values in role order |
| `RoleMenu.RoleSelect.Callback` | main.py:62-92 | the member's roles become `Reconciled(...)` of their roles at the start, and the reply is the summary of the granted and revoked names |
| `Store.GuildKey` | main.py:43 | a guild's record is stored under `str(guild_id)` |
| `Store.DefaultOf` | main.py:202 | `g.get("defaultRoleId")`: the guild's stored entry, or None when the guild or the entry is missing |
| `Store.LookupDefault` | main.py:202-205 | an absent or empty entry is unset, a non-numeric one fails `int`, otherwise the role with that id or missing when it no longer exists |
| `Store.Touched` | main.py:43 | `setdefault` adds the guild's key with an empty record when it is missing, and leaves every existing record as it was |
| `Store.WithDefault` | main.py:175-176 | `set-default` gives the guild's record `defaultRoleId` and leaves every other guild's record as it was |
| `Store.WithoutDefault` | main.py:188-189 | `clear-default` removes the guild's `defaultRoleId` and leaves every other guild's record as it was |
| `Store.LookupStoredId` | main.py:202-205 | an id stored by `set-default` reads back as that role while it exists, and as missing once it is gone |
| `Store.SettingsStore.Empty` | main.py:18-23 | a store loaded from a missing or unreadable file has no guilds |
| `Store.SettingsStore.GetGuildSettings` | main.py:42-43 | returns the guild's existing record object unchanged, or creates, stores and returns a fresh empty one; no other record changes |
| `Store.SettingsStore.GetGuildSettingsTwice` | main.py:42-43 | two calls for the same guild return the same record object |
| `Commands.Present` | main.py:131 | the filtered role list holds exactly the roles that were given, and no more of them than there are slots |
| `Commands.PresentAppend` | main.py:131 | filtering keeps slot order: filtering two runs of slots gives the roles of the first run, then those of the second |
| `Commands.RequiredRoleMeansSomeRole` | main.py:131-133 | with `role1` given, the filtered list is never empty |
| `Commands.RoleMenuCommand` | main.py:126-148 | denies an actor without the permission; aborts when no role is given; posts the menu exactly when the actor guard passes, there is at least one role, and the bot may manage every role, with at most 5 roles in slot order; otherwise names the first role the bot may not manage, and posts nothing |
| `Commands.SetDefault` | main.py:162-178 | denies an actor without the permission, then refuses a role the bot may not manage; stores `str(role.id)` for the guild only when both guards pass, and leaves the store unchanged otherwise |
| `Commands.ClearDefault` | main.py:186-191 | removes the guild's default for any caller, and leaves every other guild unchanged |
| `Commands.Show` | main.py:199-208 | reports the stored default: not configured when unset or empty, a failure when it is not a number, the unknown name when the role is gone, the role's name otherwise; it also creates the guild's empty record |
| `Commands.ShowReply` | main.py:203-208 | `show` answers not configured for an unset entry, a failure for a malformed one, the unknown name for a missing role, and the role's name otherwise |
| `Commands.ShowAfterSetDefault` | main.py:201-206 | after `set-default`, `show` reports the role's current name, or the unknown name once the role is gone |
| `Commands.ShowAfterClearDefault` | main.py:201-208 | after `clear-default`, `show` reports that no default is configured |
| `Commands.ClearDefaultIdempotent` | main.py:188-189 | clearing twice leaves what clearing once left |
| `Commands.OtherGuildsUnchanged` | main.py:42-43 | setting, clearing or looking up one guild's default leaves every other guild's default as it was |
| `Events.JoinDecision` | main.py:249-262 | the join handler grants a role exactly when a default is stored, the role still exists and the bot may manage it, and the role it grants is the stored one |
| `Events.OnMemberJoin` | main.py:245-263 | the member gains the decided role when it is granted; otherwise the member's roles are unchanged; the guild's record is created when missing |
| `Events.JoinAfterSetDefault` | main.py:249-262 | after `set-default`, a joining member is granted that role exactly when it still exists and the bot may still manage it |
| `Events.JoinAfterClearDefault` | main.py:249-251 | after `clear-default`, a joining member is granted nothing |

## Left out

- Network calls. `add_roles`, `remove_roles`, `fetch_member`, `fetch_role`, `send_message` and
  the embed are Discord API calls. Grants and revokes are role-set updates. Lookups are optional
  map lookups. Replies are `Commands.Reply` values or the summary string.
- Library failures. The library's own exceptions (a `Forbidden` grant, a `fetch_role` that
  raises when the role is gone) and the `except Exception` fallbacks that send a generic message
  are not modelled, apart from `int(rid)` failing in `show` (`Reply.Failed`) and in the join
  handler (`JoinOutcome.InvalidId`). Grants and revokes made before such an error stay applied.
  The model does not roll them back either.
- Persistence. `save_data` and the JSON encoding are file I/O. `load_data` is modelled only for
  the case where the file cannot be read, which gives an empty store (`SettingsStore.Empty`).
  Loading a readable document is not modelled.
- Startup and presentation. Command registration and sync in `on_ready`, the `.env`/`TOKEN`
  bootstrap, the log lines, the reply texts of the commands, and the menu's placeholder and
  `custom_id` are not modelled.
- Concurrency. The race between concurrent submissions, or between concurrent `save_data` calls,
  is not modelled, nor are gateway cache updates that arrive while the callback waits on a
  grant.
- Numerals.ParseDecimal: models `int()` only on non-empty strings of ASCII digits, which is all
  the bot itself writes. Python's `int` also accepts signs, surrounding whitespace, underscores
  and non-ASCII digits. The model treats those strings as a failed parse.
- Guild.Below: a role's place is one integer rank. discord.py also breaks position ties by id
  and treats `@everyone` as the lowest role. The rank stands for that whole order.
- Commands.RoleMenuCommand: `role1` is an `Option` like the other slots, so that the
  `if not roles` branch can be reached. Discord always supplies `role1`, and
  `Commands.RequiredRoleMeansSomeRole` shows the branch then never runs.
