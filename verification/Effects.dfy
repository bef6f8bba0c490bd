/** What each database call does to the tables and when it succeeds, said column by column:
    conditions and new rows are spelled out on the tables themselves. */
module Effects {
  import opened Outcomes
  import opened Credentials
  import opened Schema
  import opened SessionSql
  import opened MembershipSql
  import opened Requests
  import opened SessionHistory
  import opened Integrity

  // ---- Refresh ----

  /** Which answer a refresh gives for the token of a stored session: reuse exactly for a revoked
      row, expiry exactly for an unrevoked one past its time, no user exactly for an unexpired one
      of an inactive user; and never that the token is unknown. */
  lemma RefreshAnswers(t: Tables, now: Time, id: Id, issue: Issue)
    requires HashUnique(t.sessions) && id in t.sessions && SubjectsAreUsers(t.sessions, t.subjects)
    ensures var row := t.sessions[id];
            var reply := RefreshAuthSession(t, now, row.hash, issue).reply;
            var active := row.subject in t.users && t.users[row.subject].active;
            && (reply == Failed(TokenReuseDetected) <==> row.revokedAt.Some?)
            && (reply == Failed(TokenExpired) <==> row.revokedAt.None? && row.expiresAt <= now)
            && (reply == Failed(UserNotFound) <==> row.revokedAt.None? && now < row.expiresAt && !active)
            && reply != Failed(TokenNotFound)
  {}

  /** A token of no stored session is not found, and nothing changes. */
  lemma UnknownTokenIsNotFound(t: Tables, now: Time, hash: TokenHash, issue: Issue)
    requires forall i | i in t.sessions :: t.sessions[i].hash != hash
    ensures RefreshAuthSession(t, now, hash, issue) == Effect(t, Failed(TokenNotFound))
  {}

  /** Reuse revokes the unrevoked rows of the family and changes nothing else. */
  lemma ReuseRevokesFamily(t: Tables, now: Time, id: Id, issue: Issue)
    requires HashUnique(t.sessions) && id in t.sessions && t.sessions[id].revokedAt.Some?
    ensures var t' := RefreshAuthSession(t, now, t.sessions[id].hash, issue).t;
            && t' == t.(sessions := t'.sessions) && t'.sessions.Keys == t.sessions.Keys
            && forall i | i in t.sessions ::
                 t'.sessions[i] ==
                 if t.sessions[i].family == t.sessions[id].family && t.sessions[i].revokedAt.None?
                 then t.sessions[i].(revokedAt := Some(now), reason := Some(ReuseDetected))
                 else t.sessions[i]
  {}

  /** Expiry revokes the presented row and changes nothing else; no row of its family is left
      unrevoked. */
  lemma ExpiryRevokesRow(t: Tables, now: Time, id: Id, issue: Issue)
    requires HashUnique(t.sessions) && FamilyActiveUnique(t.sessions)
    requires id in t.sessions && t.sessions[id].revokedAt.None? && t.sessions[id].expiresAt <= now
    ensures var row := t.sessions[id];
            var t' := RefreshAuthSession(t, now, row.hash, issue).t;
            && t' == t.(sessions := t.sessions[id := row.(revokedAt := Some(now), reason := Some(Expired))])
            && forall i | i in t'.sessions && t'.sessions[i].family == row.family :: t'.sessions[i].revokedAt.Some?
  {
    var ss := t.sessions;
    assert RevokeLive(ss, {id}, now, Expired) == ss[id := ss[id].(revokedAt := Some(now), reason := Some(Expired))];
  }

  /** A refresh for an inactive user changes nothing. */
  lemma InactiveUserRefreshesNothing(t: Tables, now: Time, id: Id, issue: Issue)
    requires HashUnique(t.sessions) && SubjectsAreUsers(t.sessions, t.subjects)
    requires id in t.sessions && t.sessions[id].revokedAt.None? && now < t.sessions[id].expiresAt
    requires t.sessions[id].subject in t.users && !t.users[t.sessions[id].subject].active
    ensures RefreshAuthSession(t, now, t.sessions[id].hash, issue).t == t
  {}

  // ---- Revocations ----

  /** Revoke-all always succeeds, and revokes the subject's unrevoked rows and no other. */
  lemma RevokeAllTouchesOneSubject(t: Tables, now: Time, subject: Id)
    ensures var e := RevokeAllAuthSessions(t, now, subject);
            && e.reply == Done && e.t == t.(sessions := e.t.sessions)
            && OnlySubjectRevoked(t.sessions, e.t.sessions, subject, now, LoggedOut)
  {}

  /** Deactivation succeeds exactly for an active user; it clears that user's active flag, revokes
      that user's unrevoked rows, and changes nothing else. */
  lemma DeactivationTouchesOneUser(t: Tables, now: Time, id: Id)
    ensures var e := DeactivateUser(t, now, id);
            if id in t.users && t.users[id].active then
              && e.reply == Done
              && e.t == t.(users := t.users[id := t.users[id].(active := false)], sessions := e.t.sessions)
              && OnlySubjectRevoked(t.sessions, e.t.sessions, id, now, UserDeactivated)
            else e == Effect(t, Failed(UserNotFound))
  {}

  /** Revoking one session succeeds exactly for a row of the subject; each of the three columns is
      filled only where it was empty, and no other row changes. */
  lemma RevokeOneFillsOneRow(t: Tables, now: Time, id: Id, subject: Id, reason: Reason, replacedBy: Option<Id>)
    requires ReplacementExists(t.sessions)
    requires replacedBy.Some? ==> replacedBy.value in t.sessions && replacedBy.value != id
    ensures var e := RevokeAuthSession(t, now, id, subject, reason, replacedBy);
            if id in t.sessions && t.sessions[id].subject == subject then
              var row := t.sessions[id];
              && e.reply == Done
              && e.t == t.(sessions := t.sessions[id := row.(
                   revokedAt := if row.revokedAt.Some? then row.revokedAt else Some(now),
                   reason := if row.reason.Some? then row.reason else Some(reason),
                   replacedBy := if row.replacedBy.Some? then row.replacedBy else replacedBy)])
            else e == Effect(t, Failed(TokenNotFound))
  {}

  // ---- Inserts ----

  /** The agent text as a 1024-character column keeps it. */
  function KeptAgent(a: Agent): Agent
  {
    match a
    case Agent(s) => Agent(if |s| <= 1024 then s else s[..1024])
    case _ => a
  }

  /** A new session row as a login or refresh writes it. */
  predicate IsIssued(row: Session, subject: Id, family: Id, issue: Issue, now: Time)
  {
    && row.subject == subject && row.family == family && row.hash == issue.hash
    && row.createdAt == now && row.expiresAt == issue.expiresAt
    && row.revokedAt.None? && row.reason.None? && row.replacedBy.None?
    && row.client == Client(issue.client.host, KeptAgent(issue.client.agent))
  }

  /** Opening a session succeeds exactly for an unused id and hash, an expiry ahead, storable client
      columns, a family without unrevoked rows and an existing subject; it adds that one row. */
  lemma CreateSessionExactly(t: Tables, now: Time, issue: Issue, subject: Id, family: Id)
    ensures var e := CreateAuthSession(t, now, issue, subject, family);
            var accepted :=
              && issue.id !in t.sessions && now < issue.expiresAt && Storable(issue.client) && subject in t.subjects
              && (forall i | i in t.sessions :: t.sessions[i].hash != issue.hash)
              && (forall i | i in t.sessions && t.sessions[i].revokedAt.None? :: t.sessions[i].family != family);
            && (e.reply.SessionReply? <==> accepted) && (e.reply.Failed? <==> !accepted)
            && (accepted ==>
                  && issue.id in e.t.sessions && IsIssued(e.t.sessions[issue.id], subject, family, issue, now)
                  && e.t == t.(sessions := t.sessions[issue.id := e.t.sessions[issue.id]])
                  && e.reply == SessionReply(issue.id, e.t.sessions[issue.id]))
            && (!accepted ==> e.t == t)
  {}

  /** The row a rotation inserts, in the subject and family of the rotated one. */
  lemma RotationIssues(t: Tables, now: Time, id: Id, issue: Issue)
    requires HashUnique(t.sessions) && id in t.sessions
    ensures var e := RefreshAuthSession(t, now, t.sessions[id].hash, issue);
            e.reply.SessionReply? ==>
              && e.reply.sessionId == issue.id && issue.id in e.t.sessions
              && e.reply.session == e.t.sessions[issue.id]
              && IsIssued(e.t.sessions[issue.id], t.sessions[id].subject, t.sessions[id].family, issue, now)
  {}

  /** A user row clashes with no other on username, email or phone. */
  ghost predicate NoClash(us: map<Id, User>, id: Id, row: User)
  {
    forall j | j in us && j != id ::
      && us[j].username != row.username && us[j].email != row.email
      && (row.phone.Some? ==> us[j].phone != row.phone)
  }

  /** Creating a user succeeds exactly for an unused id, a row that fits its columns, a 32-bit phone
      and no clash; it adds subject and user, phone zero as NULL. */
  lemma CreateUserExactly(t: Tables, id: Id, active: bool, username: string, email: string,
                         passwordHash: string, phone: int)
    requires t.users.Keys <= t.subjects.Keys
    ensures var row := User(active, username, email, if phone == 0 then None else Some(phone), passwordHash);
            SessionSql.CreateUser(t, id, active, username, email, passwordHash, phone) ==
            if id in t.subjects || !FitsInt32(phone) || !UserFits(row) then Effect(t, Failed(QueryError))
            else if !NoClash(t.users, id, row) then Effect(t, Failed(UserAlreadyExists))
            else Effect(t.(subjects := t.subjects[id := UserKind], users := t.users[id := row]), UserReply(id, row))
  {
    var row := User(active, username, email, if phone == 0 then None else Some(phone), passwordHash);
    assert NoClash(t.users, id, row) <==> forall j | j in t.users && j != id :: Distinct(row, t.users[j]);
  }

  // ---- Organizations ----

  /** Creating an organization succeeds exactly for an active owner, an unused id and a profile that
      fits; it adds the subject, the organization and the owner's row. */
  lemma CreateOrganizationExactly(t: Tables, now: Time, org: Id, profile: Organization, owner: Id)
    requires OrgSchema(t.orgs, t.subjects) && MemberSchema(t.members, t.users, t.orgs)
    ensures var e := CreateOrganization(t, now, org, profile, owner);
            if owner in t.users && t.users[owner].active && org !in t.subjects && OrgFits(profile) then
              && e.reply == Done
              && e.t == t.(subjects := t.subjects[org := OrganizationKind], orgs := t.orgs[org := profile],
                           members := t.members[MemberKey(owner, org) := Member(Owner, now)])
            else e.t == t && e.reply.Failed?
  {}

  /** Deleting an organization succeeds exactly for an active member; subject, organization and all of
      its membership rows go, everything else stays. */
  lemma DeleteOrganizationExactly(t: Tables, org: Id, caller: Id)
    requires KindsAgree(t.subjects, t.users, t.orgs) && MemberSchema(t.members, t.users, t.orgs)
    requires SubjectsAreUsers(t.sessions, t.subjects)
    ensures var e := DeleteOrganization(t, org, caller);
            if MemberKey(caller, org) in t.members && caller in t.users && t.users[caller].active then
              && e.reply == Done
              && e.t == t.(subjects := t.subjects - {org}, orgs := t.orgs - {org},
                           members := map k | k in t.members && k.org != org :: t.members[k])
            else e == Effect(t, Failed(OrganizationNotFound))
  {
    if MemberKey(caller, org) in t.members {
      assert org in t.orgs;
      CascadeReachesNoSession(t, org);
      assert org !in t.users && t.users - {org} == t.users;
      DeletedMembers(t, org);
    }
  }

  lemma DeletedMembers(t: Tables, org: Id)
    requires org !in t.users && MemberSchema(t.members, t.users, t.orgs)
    ensures DeleteSubject(t, org).members == map k | k in t.members && k.org != org :: t.members[k]
  {}

  /** Adding a member succeeds exactly for an active caller with a row, an active target without one
      and a known role; it adds that row. */
  lemma AddMemberExactly(t: Tables, now: Time, org: Id, user: Id, caller: Id, role: Role)
    ensures var e := AddOrganizationMember(t, now, org, user, caller, role);
            if && user in t.users && t.users[user].active && MemberKey(user, org) !in t.members
               && MemberKey(caller, org) in t.members && caller in t.users && t.users[caller].active
               && role in {Owner, Admin, Editor, Viewer}
            then e == Effect(t.(members := t.members[MemberKey(user, org) := Member(role, now)]), MemberReply(role))
            else e.t == t && e.reply.Failed?
  {}

  /** A role change succeeds exactly for an active caller with a row, a target with a row and a known
      role; it changes the role of that row. */
  lemma UpdateMemberExactly(t: Tables, org: Id, user: Id, caller: Id, role: Role)
    ensures var e := UpdateOrganizationMemberRole(t, org, user, caller, role);
            var key := MemberKey(user, org);
            if && key in t.members
               && MemberKey(caller, org) in t.members && caller in t.users && t.users[caller].active
               && role in {Owner, Admin, Editor, Viewer}
            then e == Effect(t.(members := t.members[key := Member(role, t.members[key].createdAt)]), MemberReply(role))
            else e.t == t && e.reply.Failed?
  {}

  /** A removal succeeds exactly for an active caller with a row and a target with a row; that row
      goes. */
  lemma RemoveMemberExactly(t: Tables, org: Id, user: Id, caller: Id)
    ensures var e := RemoveOrganizationMember(t, org, user, caller);
            var key := MemberKey(user, org);
            if && key in t.members
               && MemberKey(caller, org) in t.members && caller in t.users && t.users[caller].active
            then e == Effect(t.(members := map k | k in t.members && k != key :: t.members[k]), Done)
            else e == Effect(t, Failed(MemberNotFound))
  {
    var key := MemberKey(user, org);
    assert t.members - {key} == map k | k in t.members && k != key :: t.members[k];
  }

  /** The owner count is at least two exactly if two users have owner rows. */
  lemma TwoOwnersCounted(t: Tables, org: Id)
    ensures OwnerCount(RolesOf(t, org)) >= 2 <==>
            exists u, v :: u != v && HasOwnerRow(t.members, org, u) && HasOwnerRow(t.members, org, v)
  {
    var owners := OwnersAmong(RolesOf(t, org));
    assert forall u :: u in owners <==> HasOwnerRow(t.members, org, u);
    if u, v :| u != v && HasOwnerRow(t.members, org, u) && HasOwnerRow(t.members, org, v) {
      assert owners == {u, v} + (owners - {u, v});
    }
    if |owners| >= 2 {
      var u :| u in owners;
      assert |owners - {u}| >= 1;
      var v :| v in owners - {u};
    }
  }

  predicate HasOwnerRow(ms: map<MemberKey, Member>, org: Id, u: Id)
  {
    MemberKey(u, org) in ms && ms[MemberKey(u, org)].role == Owner
  }
}
