/** What the SQL of pkg/db/psql/psql.go does to organizations and their members. */
module MembershipSql {
  import opened Outcomes
  import opened Schema
  import opened SessionSql

  /** A membership row whose user is active: what every scoped query joins on. */
  predicate ActiveMember(t: Tables, org: Id, user: Id)
  {
    MemberKey(user, org) in t.members && ActiveUser(t, user)
  }

  ghost function CreateOrganization(t: Tables, now: Time, org: Id, profile: Organization, owner: Id): Effect
  {
    var key := MemberKey(owner, org);
    if !ActiveUser(t, owner) then Effect(t, Failed(UserNotFound))
    else if org in t.subjects || org in t.orgs || !OrgFits(profile) || key in t.members then
      Effect(t, Failed(QueryError))
    else
      Effect(
        t.(subjects := t.subjects[org := OrganizationKind],
           orgs := t.orgs[org := profile],
           members := t.members[key := Member(Owner, now)]),
        Done)
  }

  /** DELETE FROM subjects with its cascades: the profile row, the subject's sessions and the
      memberships go too, and references to a deleted session become NULL. */
  function DeleteSubject(t: Tables, id: Id): Tables
  {
    Tables(
      t.subjects - {id},
      t.users - {id},
      map i | i in t.sessions && t.sessions[i].subject != id ::
        var next := t.sessions[i].replacedBy;
        if next.Some? && next.value in t.sessions && t.sessions[next.value].subject == id
        then t.sessions[i].(replacedBy := None) else t.sessions[i],
      t.orgs - {id},
      map k | k in t.members && k.user != id && k.org != id :: t.members[k])
  }

  function DeleteOrganization(t: Tables, org: Id, caller: Id): Effect
  {
    if org in t.subjects && t.subjects[org] == OrganizationKind && ActiveMember(t, org, caller)
    then Effect(DeleteSubject(t, org), Done)
    else Effect(t, Failed(OrganizationNotFound))
  }

  /** The role column of an organization's membership rows, by member. */
  function RolesOf(t: Tables, org: Id): map<Id, Role>
  {
    map u | u in (set k | k in t.members :: k.user) && MemberKey(u, org) in t.members ::
      t.members[MemberKey(u, org)].role
  }

  function ListOrganizationMembers(t: Tables, org: Id, caller: Id): Effect
  {
    Effect(t, MembersReply(if ActiveMember(t, org, caller) then RolesOf(t, org) else map[]))
  }

  function AddOrganizationMember(t: Tables, now: Time, org: Id, user: Id, caller: Id, role: Role): Effect
  {
    var key := MemberKey(user, org);
    if !ActiveUser(t, user) || !ActiveMember(t, org, caller) then Effect(t, Failed(UserNotFound))
    else if !IsValidRole(role) then Effect(t, Failed(QueryError))
    else if key in t.members then Effect(t, Failed(MemberAlreadyExists))
    else Effect(t.(members := t.members[key := Member(role, now)]), MemberReply(role))
  }

  function GetOrganizationMember(t: Tables, org: Id, user: Id, caller: Id): Effect
  {
    Effect(t,
      if ActiveMember(t, org, user) && ActiveMember(t, org, caller)
      then MemberReply(t.members[MemberKey(user, org)].role)
      else Failed(MemberNotFound))
  }

  function UpdateOrganizationMemberRole(t: Tables, org: Id, user: Id, caller: Id, role: Role): Effect
  {
    var key := MemberKey(user, org);
    if key !in t.members || !ActiveMember(t, org, caller) then Effect(t, Failed(MemberNotFound))
    else if !IsValidRole(role) then Effect(t, Failed(QueryError))
    else Effect(t.(members := t.members[key := t.members[key].(role := role)]), MemberReply(role))
  }

  function RemoveOrganizationMember(t: Tables, org: Id, user: Id, caller: Id): Effect
  {
    var key := MemberKey(user, org);
    if key !in t.members || !ActiveMember(t, org, caller) then Effect(t, Failed(MemberNotFound))
    else Effect(t.(members := t.members - {key}), Done)
  }
}
