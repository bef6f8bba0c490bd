/** What the tables look like in every reachable state, and how requests in flight and signed
    tokens relate to them. */
module Integrity {
  import opened Outcomes
  import opened Credentials
  import opened Schema
  import opened SessionSql
  import opened MembershipSql
  import opened SchemaLemmas
  import opened Requests
  import opened SessionHistory

  /** Subject kinds agree with the profile tables. */
  ghost predicate KindsAgree(subjects: map<Id, Kind>, users: map<Id, User>, orgs: map<Id, Organization>)
  {
    && (forall u | u in users :: u in subjects && subjects[u] == UserKind)
    && (forall o | o in orgs :: o in subjects && subjects[o] == OrganizationKind)
    && (forall x | x in subjects && subjects[x] == OrganizationKind :: x in orgs)
  }

  /** Sessions belong to users. */
  ghost predicate SessionsOfUsers(ss: map<Id, Session>, users: map<Id, User>)
  {
    forall i | i in ss :: ss[i].subject in users
  }

  /** NULLIF on both write paths: no phone column holds zero. */
  ghost predicate NoZeroPhone(users: map<Id, User>)
  {
    forall u | u in users :: users[u].phone != Some(0)
  }

  ghost predicate Sound(t: Tables, now: Time)
  {
    && Legal(t, now)
    && KindsAgree(t.subjects, t.users, t.orgs)
    && SessionsOfUsers(t.sessions, t.users)
    && NoZeroPhone(t.users)
    && SessionShape(t.sessions)
  }

  lemma SoundSubjects(t: Tables)
    requires KindsAgree(t.subjects, t.users, t.orgs) && SessionsOfUsers(t.sessions, t.users)
    ensures SubjectsAreUsers(t.sessions, t.subjects)
  {}

  // ---- One call keeps the tables sound ----

  lemma NewUserKeepsKinds(t: Tables, id: Id, row: User)
    requires KindsAgree(t.subjects, t.users, t.orgs) && SessionsOfUsers(t.sessions, t.users) && NoZeroPhone(t.users)
    requires id !in t.subjects && row.phone != Some(0)
    ensures KindsAgree(t.subjects[id := UserKind], t.users[id := row], t.orgs)
    ensures SessionsOfUsers(t.sessions, t.users[id := row]) && NoZeroPhone(t.users[id := row])
  {}

  lemma CreateUserKeepsSound(t: Tables, now: Time,
                             id: Id, username: string, email: string, passwordHash: string, phone: int)
    requires Sound(t, now)
    ensures Sound(CreateUser(t, id, true, username, email, passwordHash, phone).t, now)
  {
    var row := User(true, username, email, PhoneColumn(phone), passwordHash);
    if CreateUser(t, id, true, username, email, passwordHash, phone).reply.UserReply? {
      SubjectInsertKeepsSchema(t, id, UserKind, now);
      UserWriteKeepsSchema(t.(subjects := t.subjects[id := UserKind]), id, row, now);
      NewUserKeepsKinds(t, id, row);
    }
  }

  lemma UserWriteKeepsSound(t: Tables, now: Time, id: Id, row: User)
    requires Sound(t, now) && id in t.users && UserFits(row) && row.phone != Some(0)
    requires forall j | j in t.users && j != id :: Distinct(row, t.users[j])
    ensures Sound(t.(users := t.users[id := row]), now)
  {
    UserWriteKeepsSchema(t, id, row, now);
  }

  lemma UpdateUserKeepsSound(t: Tables, now: Time, id: Id, username: string, email: string, phoneText: string)
    requires Sound(t, now)
    ensures Sound(UpdateUser(t, id, username, email, phoneText).t, now)
  {
    var phone := ParsePhoneText(phoneText);
    if phone.Some? && ActiveUser(t, id) {
      var row := t.users[id].(username := username, email := email, phone := PhoneColumn(phone.value));
      if UserFits(row) && forall j | j in t.users && j != id :: Distinct(row, t.users[j]) {
        UserWriteKeepsSound(t, now, id, row);
      }
    }
  }

  lemma ChangeKeepsSessionSchema(ss: map<Id, Session>, now: Time, c: SessionChange)
    requires SessionSchema(ss) && SessionClock(ss, now) && ChangeFits(ss, now, c)
    ensures SessionSchema(Changed(ss, now, c)) && SessionClock(Changed(ss, now, c), now)
  {
    match c
    case Unchanged =>
    case Revoked(ids, reason) => RevokeLiveKeepsSchema(ss, ids, now, reason);
    case Opened(id, row) => InsertKeepsSchema(ss, id, row, now);
    case Replaced(id, issue) => RotationStatementsAreLegal(ss, id, issue, now);
  }

  /** A change to the session table alone keeps the tables sound. */
  lemma SessionChangeKeepsSound(t: Tables, now: Time, c: SessionChange)
    requires Sound(t, now) && ChangeFits(t.sessions, now, c)
    requires c.Opened? ==> c.row.subject in t.users
    ensures Sound(t.(sessions := Changed(t.sessions, now, c)), now)
  {
    var ss' := Changed(t.sessions, now, c);
    assert SessionClock(t.sessions, now);
    ChangeKeepsSessionSchema(t.sessions, now, c);
    ChangeEvolves(t.sessions, now, c);
    assert forall i | i in ss' :: ss'[i].subject in t.users;
  }

  lemma DeactivateUserKeepsSound(t: Tables, now: Time, id: Id)
    requires Sound(t, now)
    ensures Sound(DeactivateUser(t, now, id).t, now)
  {
    if ActiveUser(t, id) {
      UserWriteKeepsSound(t, now, id, t.users[id].(active := false));
      SessionChangeKeepsSound(t.(users := t.users[id := t.users[id].(active := false)]), now,
                              Revoked(SubjectSessions(t.sessions, id), UserDeactivated));
    }
  }

  /** A new organization with its subject, before its owner is a member. */
  lemma NewOrganizationKeepsSound(t: Tables, now: Time, org: Id, profile: Organization)
    requires Sound(t, now) && org !in t.subjects && OrgFits(profile)
    ensures Sound(t.(subjects := t.subjects[org := OrganizationKind], orgs := t.orgs[org := profile]), now)
  {
    SubjectInsertKeepsSchema(t, org, OrganizationKind, now);
  }

  lemma CreateOrganizationKeepsSound(t: Tables, now: Time, org: Id, profile: Organization, owner: Id)
    requires Sound(t, now)
    ensures Sound(CreateOrganization(t, now, org, profile, owner).t, now)
  {
    if ActiveUser(t, owner) && org !in t.subjects && OrgFits(profile) {
      var t1 := t.(subjects := t.subjects[org := OrganizationKind], orgs := t.orgs[org := profile]);
      NewOrganizationKeepsSound(t, now, org, profile);
      MemberWriteKeepsSound(t1, now, MemberKey(owner, org), Member(Owner, now));
    }
  }

  lemma DeleteOrganizationKeepsSound(t: Tables, now: Time, org: Id, caller: Id)
    requires Sound(t, now)
    ensures Sound(DeleteOrganization(t, org, caller).t, now)
  {
    if org in t.subjects && t.subjects[org] == OrganizationKind {
      SoundSubjects(t);
      CascadeReachesNoSession(t, org);
      DeleteSubjectKeepsSchema(t, org, now);
    }
  }

  lemma MemberWriteKeepsSound(t: Tables, now: Time, key: MemberKey, row: Member)
    requires Sound(t, now) && key.user in t.users && key.org in t.orgs && IsValidRole(row.role) && row.createdAt <= now
    ensures Sound(t.(members := t.members[key := row]), now)
  {
    MemberWriteKeepsSchema(t, key, row, now);
  }

  lemma MemberRemovalKeepsSound(t: Tables, now: Time, key: MemberKey)
    requires Sound(t, now)
    ensures Sound(t.(members := t.members - {key}), now)
  {}

  lemma MembershipCallKeepsSound(t: Tables, now: Time, call: DbCall)
    requires Sound(t, now)
    requires
      call.CallAddOrganizationMember? || call.CallUpdateOrganizationMemberRole? || call.CallRemoveOrganizationMember?
    ensures Sound(Apply(t, now, call).t, now)
  {
    var key := MemberKey(call.user, call.org);
    if Apply(t, now, call).t != t {
      if call.CallRemoveOrganizationMember? {
        MemberRemovalKeepsSound(t, now, key);
      } else {
        MemberWriteKeepsSound(t, now, key, Apply(t, now, call).t.members[key]);
      }
    }
  }

  lemma UserCallKeepsSound(t: Tables, now: Time, call: DbCall)
    requires Sound(t, now) && (call.CallCreateUser? || call.CallUpdateUser? || call.CallDeactivateUser?)
    ensures Sound(Apply(t, now, call).t, now)
  {
    match call
    case CallCreateUser(id, username, email, passwordHash, phone) =>
      CreateUserKeepsSound(t, now, id, username, email, passwordHash, phone);
    case CallUpdateUser(id, username, email, phoneText) => UpdateUserKeepsSound(t, now, id, username, email, phoneText);
    case CallDeactivateUser(id) => DeactivateUserKeepsSound(t, now, id);
  }

  lemma OrganizationCallKeepsSound(t: Tables, now: Time, call: DbCall)
    requires Sound(t, now) && (call.CallCreateOrganization? || call.CallDeleteOrganization?)
    ensures Sound(Apply(t, now, call).t, now)
  {
    match call
    case CallCreateOrganization(org, profile, owner) => CreateOrganizationKeepsSound(t, now, org, profile, owner);
    case CallDeleteOrganization(org, caller) => DeleteOrganizationKeepsSound(t, now, org, caller);
  }

  /** Every database call keeps the tables sound. */
  lemma CallKeepsSound(t: Tables, now: Time, call: DbCall)
    requires Sound(t, now)
    requires call.CallCreateAuthSession? ==> call.subject in t.users
    ensures Sound(Apply(t, now, call).t, now)
  {
    if TouchesOnlySessions(call) {
      SessionCallKeepsSound(t, now, call);
    } else if call.CallCreateUser? || call.CallUpdateUser? || call.CallDeactivateUser? {
      UserCallKeepsSound(t, now, call);
    } else if call.CallCreateOrganization? || call.CallDeleteOrganization? {
      OrganizationCallKeepsSound(t, now, call);
    } else {
      MembershipCallKeepsSound(t, now, call);
    }
  }

  lemma SessionCallKeepsSound(t: Tables, now: Time, call: DbCall)
    requires Sound(t, now) && TouchesOnlySessions(call)
    requires call.CallCreateAuthSession? ==> call.subject in t.users
    ensures Sound(Apply(t, now, call).t, now)
  {
    SoundSubjects(t);
    CallMakesItsChange(t, now, call);
    SessionChangeKeepsSound(t, now, ChangeOf(t, now, call));
  }
}
