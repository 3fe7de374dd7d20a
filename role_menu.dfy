/**
 * The role-toggle select menu (`RoleSelect`, main.py:47-97): the options built
 * from the chosen roles, and the callback that brings the submitting member's
 * roles in line with the submitted selection and reports what it changed.
 */
module RoleMenu {
  import opened Wrappers
  import opened Guild
  import opened Numerals
  import opened Reconcile

  /** The presentation surface's limit on an option's label and description. */
  const MaxLabel: nat := 100

  /** One option of the select menu; `caption` is its label. */
  datatype SelectOption = SelectOption(caption: string, value: string, description: string)

  /** `s[:n]`. */
  function Truncate(s: string, n: nat): (t: string)
    ensures |t| <= n && t <= s
    ensures |s| <= n ==> t == s
    ensures |s| > n ==> |t| == n
  {
    if |s| <= n then s else s[..n]
  }

  /** The options of a menu for `roles`: main.py:49-52. */
  function MenuOptions(roles: seq<Role>): (opts: seq<SelectOption>)
    ensures |opts| == |roles|
    ensures forall i :: 0 <= i < |roles| ==>
              |opts[i].caption| <= MaxLabel && opts[i].caption <= roles[i].name &&
              (|roles[i].name| <= MaxLabel ==> opts[i].caption == roles[i].name) &&
              (|roles[i].name| > MaxLabel ==> |opts[i].caption| == MaxLabel) &&
              |opts[i].description| <= MaxLabel &&
              opts[i].description == Truncate("역할: " + roles[i].name, MaxLabel)
    ensures forall i :: 0 <= i < |roles| ==> opts[i].value == Decimal(roles[i].id)
    ensures forall i :: 0 <= i < |roles| ==> ParseDecimal(opts[i].value) == Some(roles[i].id)
  {
    var opts := seq(|roles|, i requires 0 <= i < |roles| =>
      SelectOption(Truncate(roles[i].name, MaxLabel), Decimal(roles[i].id), Truncate("역할: " + roles[i].name, MaxLabel)));
    assert forall i :: 0 <= i < |roles| ==> ParseDecimal(opts[i].value) == Some(roles[i].id) by {
      forall i | 0 <= i < |roles| ensures ParseDecimal(opts[i].value) == Some(roles[i].id) {
        ParseDecimalRoundTrip(roles[i].id);
      }
    }
    opts
  }

  /** `sep.join(parts)`. */
  function Join(parts: seq<string>, sep: string): string
    decreases |parts|
  {
    if parts == [] then ""
    else if |parts| == 1 then parts[0]
    else parts[0] + sep + Join(parts[1..], sep)
  }

  const NoChanges: string := "변경 사항 없음."
  const AddedHeader: string := "추가: "
  const RemovedHeader: string := "제거: "

  /** The reply of the callback: main.py:87-92. */
  function Summary(added: seq<string>, removed: seq<string>): (s: string)
    ensures s == NoChanges <==> added == [] && removed == []
    ensures added != [] && removed == [] ==> s == AddedHeader + Join(added, ", ")
    ensures added == [] && removed != [] ==> s == RemovedHeader + Join(removed, ", ")
    ensures added != [] && removed != [] ==>
              s == AddedHeader + Join(added, ", ") + " | " + RemovedHeader + Join(removed, ", ")
  {
    var parts := (if added != [] then [AddedHeader + Join(added, ", ")] else [])
               + (if removed != [] then [RemovedHeader + Join(removed, ", ")] else []);
    var s := if parts != [] then Join(parts, " | ") else NoChanges;
    assert parts != [] ==> s != NoChanges by {
      if parts != [] {
        assert s[0] == parts[0][0];
        assert parts[0][0] == AddedHeader[0] || parts[0][0] == RemovedHeader[0];
      }
    }
    assert |parts| == 2 ==> s == parts[0] + " | " + parts[1] by {
      if |parts| == 2 {
        assert parts[1..] == [parts[1]];
        assert Join(parts[1..], " | ") == parts[1];
      }
    }
    s
  }

  /** The callback answers "변경 사항 없음." exactly when the submission left the member's roles as they were. */
  lemma {:induction false} NoChangesIffRolesUnchanged(sub: Submission, held: set<RoleId>, ids: seq<RoleId>)
    ensures (Summary(Names(Granted(sub, held, ids)), Names(Revoked(sub, held, ids))) == NoChanges)
        <==> (Reconciled(sub, held, ids) == held)
  {
    UnchangedIffNothingReported(sub, held, ids);
  }

  /** The select component of a posted role menu. */
  class RoleSelect {
    const options: seq<SelectOption>
    const minValues: nat
    const maxValues: nat
    /** `self.role_ids`: the decimal strings of the candidate ids, in the order the roles were given. */
    const roleIds: seq<string>
    /** The candidate ids those strings stand for. */
    ghost const ids: seq<RoleId>

    ghost predicate Valid() {
      |roleIds| == |ids| && forall i :: 0 <= i < |ids| ==> roleIds[i] == Decimal(ids[i])
    }

    /** `RoleSelect.__init__`: one option per role, zero to all of them selectable. */
    constructor (roles: seq<Role>)
      ensures Valid()
      ensures options == MenuOptions(roles) && minValues == 0 && maxValues == |roles|
      ensures ids == seq(|roles|, i requires 0 <= i < |roles| => roles[i].id)
      ensures forall i :: 0 <= i < |roles| ==> options[i].value == roleIds[i]
    {
      options := MenuOptions(roles);
      minValues := 0;
      maxValues := |roles|;
      roleIds := seq(|roles|, i requires 0 <= i < |roles| => Decimal(roles[i].id));
      ids := seq(|roles|, i requires 0 <= i < |roles| => roles[i].id);
    }

    /**
     * `RoleSelect.callback` for a submission of `values` by `member`: grants each
     * selected manageable candidate the member lacks, revokes each unselected one
     * the member holds, and returns the summary of what it changed.
     */
    method Callback(values: seq<string>, guildRoles: GuildRoles, bot: BotMember, member: Member)
      returns (summary: string)
      requires Valid()
      modifies member
      ensures var sub := Submission(guildRoles, bot, set v | v in values);
        && member.roles == Reconciled(sub, old(member.roles), ids)
        && summary == Summary(Names(Granted(sub, old(member.roles), ids)), Names(Revoked(sub, old(member.roles), ids)))
    {
      var held := member.roles;
      var selected := set v | v in values;
      ghost var sub := Submission(guildRoles, bot, selected);
      var added: seq<string> := [];
      var removed: seq<string> := [];
      for i := 0 to |roleIds|
        invariant member.roles == Reconciled(sub, held, ids[..i])
        invariant added == Names(Granted(sub, held, ids[..i]))
        invariant removed == Names(Revoked(sub, held, ids[..i]))
      {
        assert ids[..i + 1][..i] == ids[..i];
        var roleId := roleIds[i];
        ParseDecimalRoundTrip(ids[i]);
        var role := Resolve(guildRoles, ParseDecimal(roleId).value);
        if role.Some? && BotMayManage(bot, role.value) {
          var r := role.value;
          var hasRole := r.id in held;
          var shouldHave := roleId in selected;
          if shouldHave && !hasRole {
            member.AddRole(r.id);
            added := added + [r.name];
          } else if !shouldHave && hasRole {
            member.RemoveRole(r.id);
            removed := removed + [r.name];
          }
        }
      }
      assert ids[..|roleIds|] == ids;
      summary := Summary(added, removed);
    }
  }
}
