/**
 * `ServerMembershipDetailView.check_permission` (servers/views.py): who may act on one
 * membership row. The checks run in a fixed order: the row's own user, the server's
 * owner, an admin of the server (who may not update or delete an owner-role row), and
 * nobody else.
 */
module Permissions {
  import opened Identifiers
  import opened ServerModels

  datatype Action = View | Update | Delete

  datatype Reason = SelfReason | OwnerReason | AdminReason | AdminCannotModifyOwner | NoPermission

  /** The reason strings the handler receives. */
  function ReasonCode(r: Reason): string {
    match r
    case SelfReason => "self"
    case OwnerReason => "owner"
    case AdminReason => "admin"
    case AdminCannotModifyOwner => "admin_cannot_modify_owner"
    case NoPermission => "no_permission"
  }

  datatype Decision = Decision(allowed: bool, reason: Reason)

  /** A membership row as the handler loads it. */
  datatype MembershipRow = MembershipRow(user: UserId, server: ServerId, role: Role)

  /** The actor holds a membership with role "admin" on the server. */
  predicate IsAdmin(ms: Memberships, actor: UserId, s: ServerId) {
    (actor, s) in ms && ms[(actor, s)] == Admin
  }

  /**
   * `check_permission`: the decision for `actor` doing `action` on `target`, whose server
   * is owned by `owner`; `actorIsAdmin` is the result of the admin lookup.
   */
  function CheckPermission(owner: UserId, actorIsAdmin: bool, target: MembershipRow, actor: UserId, action: Action): (d: Decision)
    ensures d.allowed <==>
      (actor == target.user || actor == owner || (actorIsAdmin && (action.View? || target.role != Owner)))
    ensures d.allowed ==>
      d.reason == (if actor == target.user then SelfReason else if actor == owner then OwnerReason else AdminReason)
    ensures !d.allowed ==> d.reason == (if actorIsAdmin then AdminCannotModifyOwner else NoPermission)
  {
    if target.user == actor then Decision(true, SelfReason)
    else if owner == actor then Decision(true, OwnerReason)
    else if actorIsAdmin then
      if (action == Update || action == Delete) && target.role == Owner then
        Decision(false, AdminCannotModifyOwner)
      else
        Decision(true, AdminReason)
    else Decision(false, NoPermission)
  }

  /** The lookups `check_permission` makes: the server's owner and the admin query. */
  function PermissionIn(st: Store, target: MembershipRow, actor: UserId, action: Action): Decision
    requires target.server in st.servers
  {
    CheckPermission(st.servers[target.server].owner, IsAdmin(st.memberships, actor, target.server), target, actor, action)
  }

  /** Whatever may be updated or deleted may also be viewed; not the converse. */
  lemma ViewIsWeakest(owner: UserId, isAdmin: bool, target: MembershipRow, actor: UserId, action: Action)
    requires CheckPermission(owner, isAdmin, target, actor, action).allowed
    ensures CheckPermission(owner, isAdmin, target, actor, View).allowed
  {
  }

  /** `admin_cannot_modify_owner` arises only for an admin updating or deleting an owner-role row. */
  lemma AdminCannotModifyOwnerOnly(owner: UserId, isAdmin: bool, target: MembershipRow, actor: UserId, action: Action)
    requires CheckPermission(owner, isAdmin, target, actor, action).reason == AdminCannotModifyOwner
    ensures action != View && target.role == Owner && isAdmin && actor != owner && actor != target.user
  {
  }
}
