/** internal/authz/rbac.go and the role helpers of the organization handlers. */
module Rbac {
  import opened Outcomes
  import opened Schema

  datatype Action =
    | OrganizationRead | OrganizationUpdate | OrganizationDelete
    | MemberList | MemberRead | MemberAdd | MemberUpdate | MemberRemove

  const ROLE_PERMISSIONS: map<Role, set<Action>> := map[
    Owner := {OrganizationRead, OrganizationUpdate, OrganizationDelete,
              MemberList, MemberRead, MemberAdd, MemberUpdate, MemberRemove},
    Admin := {OrganizationRead, OrganizationUpdate,
              MemberList, MemberRead, MemberAdd, MemberUpdate, MemberRemove},
    Editor := {OrganizationRead, OrganizationUpdate, MemberList, MemberRead},
    Viewer := {OrganizationRead, MemberList, MemberRead}
  ]

  predicate Permits(role: Role, action: Action)
  {
    role in ROLE_PERMISSIONS && action in ROLE_PERMISSIONS[role]
  }

  /** The table: owners may do everything, admins everything but delete the organization, editors read
      and change the profile and read members, viewers only read. */
  lemma PermissionsExactly(role: Role, action: Action)
    ensures Permits(role, action) <==>
            match role
            case Owner => true
            case Admin => action != OrganizationDelete
            case Editor => action in {OrganizationRead, OrganizationUpdate, MemberList, MemberRead}
            case Viewer => action in {OrganizationRead, MemberList, MemberRead}
            case OtherRole(_) => false
  {}

  /** The roles that may change an organization's membership or delete it. */
  predicate Manages(role: Role)
  {
    role == Owner || role == Admin
  }

  function RoleRank(role: Role): Option<int>
  {
    match role
    case Owner => Some(4)
    case Admin => Some(3)
    case Editor => Some(2)
    case Viewer => Some(1)
    case OtherRole(_) => None
  }

  predicate IsAssignableRole(role: Role)
  {
    role == Admin || role == Editor || role == Viewer
  }
}
