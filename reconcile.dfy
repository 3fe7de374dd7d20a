/**
 * What one submission of a role menu does (`RoleSelect.callback`, main.py:62-92),
 * as functions of the candidate ids, the submitted selection and the member's
 * roles when the callback starts.
 *
 * The callback reads `member.roles` from the Member object it fetched at the start;
 * discord.py's `add_roles` and `remove_roles` do not refresh that object, so every
 * `has_role` test reads the roles the member had before the loop (`held`), while
 * the grants and revokes change the member's actual role set step by step.
 */
module Reconcile {
  import opened Wrappers
  import opened Guild
  import opened Numerals

  /** The inputs of one callback other than the member: guild roles, the bot, and `set(self.values)`. */
  datatype Submission = Submission(guildRoles: GuildRoles, bot: BotMember, selected: set<string>)

  /** What the loop does for one candidate: nothing, or a grant (`grant`) or revoke of `role`. */
  datatype Action = Skip | Apply(grant: bool, role: Role)

  /** The candidate resolves to a role and the bot may manage it. */
  predicate Effective(sub: Submission, id: RoleId) {
    id in sub.guildRoles && BotMayManage(sub.bot, Resolve(sub.guildRoles, id).value)
  }

  /** The candidate's option was submitted (`role_id in selected`, with `role_id == str(id)`). */
  predicate Selected(sub: Submission, id: RoleId) {
    Decimal(id) in sub.selected
  }

  /** One iteration of the loop at main.py:70-85. */
  function Decide(sub: Submission, held: set<RoleId>, id: RoleId): (a: Action)
    ensures a.Apply? <==> Effective(sub, id) && (Selected(sub, id) <==> id !in held)
    ensures a.Apply? ==> a.role == Resolve(sub.guildRoles, id).value
    ensures a.Apply? ==> (a.grant <==> Selected(sub, id)) && (a.grant <==> id !in held)
  {
    match Resolve(sub.guildRoles, id)
    case None => Skip
    case Some(role) =>
      if !BotMayManage(sub.bot, role) then Skip
      else
        var shouldHave := Selected(sub, id);
        var hasRole := id in held;
        if shouldHave && !hasRole then Apply(true, role)
        else if !shouldHave && hasRole then Apply(false, role)
        else Skip
  }

  /** The member's roles after the loop has run over `ids`, starting from (and deciding on) `held`. */
  function Reconciled(sub: Submission, held: set<RoleId>, ids: seq<RoleId>): set<RoleId>
    decreases |ids|
  {
    if ids == [] then held
    else
      var live := Reconciled(sub, held, ids[..|ids| - 1]);
      match Decide(sub, held, ids[|ids| - 1])
      case Apply(grant, role) => if grant then live + {role.id} else live - {role.id}
      case Skip => live
  }

  /** The roles granted (`grant`) or revoked by the loop over `ids`, in the order it met them. */
  function Changed(sub: Submission, held: set<RoleId>, ids: seq<RoleId>, grant: bool): seq<Role>
    decreases |ids|
  {
    if ids == [] then []
    else
      var earlier := Changed(sub, held, ids[..|ids| - 1], grant);
      match Decide(sub, held, ids[|ids| - 1])
      case Apply(g, role) => if g == grant then earlier + [role] else earlier
      case Skip => earlier
  }

  /** The roles whose names go to `added`. */
  function Granted(sub: Submission, held: set<RoleId>, ids: seq<RoleId>): seq<Role> {
    Changed(sub, held, ids, true)
  }

  /** The roles whose names go to `removed`. */
  function Revoked(sub: Submission, held: set<RoleId>, ids: seq<RoleId>): seq<Role> {
    Changed(sub, held, ids, false)
  }

  /** The names of `roles`, in order. */
  function Names(roles: seq<Role>): (names: seq<string>)
    ensures |names| == |roles|
    ensures forall k :: 0 <= k < |roles| ==> names[k] == roles[k].name
    decreases |roles|
  {
    if roles == [] then [] else Names(roles[..|roles| - 1]) + [roles[|roles| - 1].name]
  }

  /**
   * The outcome of the loop: a candidate that resolves and that the bot may manage
   * is held exactly when its option was submitted; every other role id, in or out
   * of the candidate list, is held exactly when it was held before.
   */
  lemma {:induction false} ReconciledMembership(sub: Submission, held: set<RoleId>, ids: seq<RoleId>, x: RoleId)
    ensures x in Reconciled(sub, held, ids) <==>
              if x in ids && Effective(sub, x) then Selected(sub, x) else x in held
    decreases |ids|
  {
    if ids != [] {
      var prefix, y := ids[..|ids| - 1], ids[|ids| - 1];
      assert ids == prefix + [y];
      ReconciledMembership(sub, held, prefix, x);
    }
  }

  /**
   * A role is in `Changed(.., grant)` exactly when it is the role of a candidate
   * whose step is a grant (or a revoke): so it resolves, the bot may manage it,
   * and it was selected and not held (or held and not selected).
   */
  lemma {:induction false} ChangedMembership(sub: Submission, held: set<RoleId>, ids: seq<RoleId>, grant: bool, r: Role)
    ensures r in Changed(sub, held, ids, grant) <==> r.id in ids && Decide(sub, held, r.id) == Apply(grant, r)
    decreases |ids|
  {
    if ids != [] {
      var prefix, y := ids[..|ids| - 1], ids[|ids| - 1];
      assert ids == prefix + [y];
      ChangedMembership(sub, held, prefix, grant, r);
    }
  }

  /**
   * `Changed(.., grant)` lists the changed candidates in candidate-list order and
   * misses none: `pos` gives, for each entry, the strictly increasing position of
   * its candidate, and every position whose step has that kind appears in `pos`.
   */
  lemma {:induction false} ChangedInCandidateOrder(sub: Submission, held: set<RoleId>, ids: seq<RoleId>, grant: bool)
    returns (pos: seq<nat>)
    ensures |pos| == |Changed(sub, held, ids, grant)|
    ensures forall k :: 0 <= k < |pos| ==>
              pos[k] < |ids| && Decide(sub, held, ids[pos[k]]) == Apply(grant, Changed(sub, held, ids, grant)[k])
    ensures forall k, l :: 0 <= k < l < |pos| ==> pos[k] < pos[l]
    ensures forall j :: 0 <= j < |ids| && Decide(sub, held, ids[j]).Apply? && Decide(sub, held, ids[j]).grant == grant ==> j in pos
    decreases |ids|
  {
    if ids == [] {
      pos := [];
    } else {
      var n := |ids| - 1;
      var prefix := ids[..n];
      var earlier := ChangedInCandidateOrder(sub, held, prefix, grant);
      assert forall j :: 0 <= j < n ==> prefix[j] == ids[j];
      var a := Decide(sub, held, ids[n]);
      if a.Apply? && a.grant == grant {
        pos := earlier + [n];
      } else {
        pos := earlier;
      }
    }
  }

  /** No role is both granted and revoked by one submission. */
  lemma AddedRemovedDisjoint(sub: Submission, held: set<RoleId>, ids: seq<RoleId>)
    ensures forall a, r :: a in Granted(sub, held, ids) && r in Revoked(sub, held, ids) ==> a.id != r.id
  {
    forall a, r | a in Granted(sub, held, ids) && r in Revoked(sub, held, ids)
      ensures a.id != r.id
    {
      ChangedMembership(sub, held, ids, true, a);
      ChangedMembership(sub, held, ids, false, r);
    }
  }

  /**
   * Submitting the same selection again, on the roles the first submission left,
   * changes nothing and reports nothing.
   */
  lemma ReconcileIdempotent(sub: Submission, held: set<RoleId>, ids: seq<RoleId>)
    ensures var after := Reconciled(sub, held, ids);
      Reconciled(sub, after, ids) == after && Granted(sub, after, ids) == [] && Revoked(sub, after, ids) == []
  {
    var after := Reconciled(sub, held, ids);
    forall x ensures x in Reconciled(sub, after, ids) <==> x in after {
      ReconciledMembership(sub, after, ids, x);
      ReconciledMembership(sub, held, ids, x);
    }
    forall x | x in ids ensures Decide(sub, after, x) == Skip {
      ReconciledMembership(sub, held, ids, x);
    }
    NothingChanged(sub, after, ids, true);
    NothingChanged(sub, after, ids, false);
  }

  /** When every candidate's step is Skip, nothing is reported. */
  lemma {:induction false} NothingChanged(sub: Submission, held: set<RoleId>, ids: seq<RoleId>, grant: bool)
    requires forall x :: x in ids ==> Decide(sub, held, x) == Skip
    ensures Changed(sub, held, ids, grant) == []
  {
    if Changed(sub, held, ids, grant) != [] {
      var r := Changed(sub, held, ids, grant)[0];
      ChangedMembership(sub, held, ids, grant, r);
    }
  }

  /**
   * A member who holds none of the candidates, on a menu whose every candidate
   * resolves and is manageable, is granted exactly the selected candidates and
   * loses nothing.
   */
  lemma FreshMemberGetsSelection(sub: Submission, held: set<RoleId>, ids: seq<RoleId>)
    requires forall x :: x in ids ==> Effective(sub, x) && x !in held
    ensures Revoked(sub, held, ids) == []
    ensures forall r :: r in Granted(sub, held, ids) <==>
              r.id in ids && Selected(sub, r.id) && Resolve(sub.guildRoles, r.id) == Some(r)
    ensures forall x :: x in Reconciled(sub, held, ids) <==> x in held || (x in ids && Selected(sub, x))
  {
    NoneRevoked(sub, held, ids);
    forall r ensures r in Granted(sub, held, ids) <==>
                     r.id in ids && Selected(sub, r.id) && Resolve(sub.guildRoles, r.id) == Some(r)
    {
      ChangedMembership(sub, held, ids, true, r);
    }
    forall x ensures x in Reconciled(sub, held, ids) <==> x in held || (x in ids && Selected(sub, x)) {
      ReconciledMembership(sub, held, ids, x);
    }
  }

  /** Nothing is revoked when no candidate is held. */
  lemma {:induction false} NoneRevoked(sub: Submission, held: set<RoleId>, ids: seq<RoleId>)
    requires forall x :: x in ids ==> x !in held
    ensures Revoked(sub, held, ids) == []
  {
    if Revoked(sub, held, ids) != [] {
      var r := Revoked(sub, held, ids)[0];
      ChangedMembership(sub, held, ids, false, r);
    }
  }

  /** The loop if every `has_role` test read the member's roles as changed so far. */
  function LiveReconciled(sub: Submission, held: set<RoleId>, ids: seq<RoleId>): set<RoleId>
    decreases |ids|
  {
    if ids == [] then held
    else
      var live := LiveReconciled(sub, held, ids[..|ids| - 1]);
      match Decide(sub, live, ids[|ids| - 1])
      case Apply(grant, role) => if grant then live + {role.id} else live - {role.id}
      case Skip => live
  }

  /**
   * Deciding on the roles the member had at the start gives the same roles as
   * re-reading them after every change: a repeated candidate gets the same
   * decision each time, and applying it again changes nothing.
   */
  lemma {:induction false} SnapshotAgreesWithLive(sub: Submission, held: set<RoleId>, ids: seq<RoleId>)
    ensures LiveReconciled(sub, held, ids) == Reconciled(sub, held, ids)
    decreases |ids|
  {
    if ids != [] {
      var prefix, y := ids[..|ids| - 1], ids[|ids| - 1];
      SnapshotAgreesWithLive(sub, held, prefix);
      ReconciledMembership(sub, held, prefix, y);
    }
  }

  /** A submission reports no grant and no revoke exactly when it leaves the member's roles as they were. */
  lemma {:induction false} UnchangedIffNothingReported(sub: Submission, held: set<RoleId>, ids: seq<RoleId>)
    ensures Reconciled(sub, held, ids) == held <==> Granted(sub, held, ids) == [] && Revoked(sub, held, ids) == []
  {
    var after := Reconciled(sub, held, ids);
    if Granted(sub, held, ids) == [] && Revoked(sub, held, ids) == [] {
      forall x ensures x in after <==> x in held {
        ReconciledMembership(sub, held, ids, x);
        if x in ids && Decide(sub, held, x).Apply? {
          ChangedMembership(sub, held, ids, Decide(sub, held, x).grant, Decide(sub, held, x).role);
        }
      }
    }
    if after == held && Granted(sub, held, ids) + Revoked(sub, held, ids) != [] {
      var grant := Granted(sub, held, ids) != [];
      var r := Changed(sub, held, ids, grant)[0];
      ChangedMembership(sub, held, ids, grant, r);
      ReconciledMembership(sub, held, ids, r.id);
    }
  }
}
