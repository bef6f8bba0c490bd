/** What each request behind the gate comes to when nothing interferes, said on the tables themselves:
    when it is accepted, and the tables afterwards. */
module Alone {
  import opened Outcomes
  import Base64
  import opened Credentials
  import opened Schema
  import opened SessionSql
  import opened MembershipSql
  import opened Rbac
  import opened Requests
  import opened Machine
  import opened SessionHistory
  import opened Integrity
  import opened Invariants
  import opened Effects
  import opened Owners
  import opened Handlers
  import opened Auth
  import opened Profile

  /** The token's session is the subject's, unrevoked and unexpired. */
  predicate LetIn(t: Tables, now: Time, tok: AccessToken)
  {
    && tok.session in t.sessions && t.sessions[tok.session].subject == tok.subject
    && t.sessions[tok.session].revokedAt.None? && now < t.sessions[tok.session].expiresAt
  }

  /** What a request asks for besides a live session: a user's token, except for the three session
      requests, and a body with a name or a field to change. */
  predicate WellPut(tok: AccessToken, act: Act)
  {
    match act
    case Logout => true
    case RevokeAll => true
    case RevokeOne(_) => true
    case PatchUser(username, email, phone) => tok.kind == UserKind && (username.Some? || email.Some? || phone.Some?)
    case CreateOrg(profile) => tok.kind == UserKind && profile.name != ""
    case _ => tok.kind == UserKind
  }

  /** The gate lets a request go on exactly with a live session and if it is well put, and turns it
      away without a change otherwise. */
  lemma GateAlone(t: Tables, now: Time, cfg: Config, tok: AccessToken, act: Act, d: Draw)
    ensures RunAlone(t, now, cfg, Request.Gate(tok, act), d) ==
            if LetIn(t, now, tok) && WellPut(tok, act) then RunAlone(t, now, cfg, Ready(tok, act), d)
            else Solo(t, Rejected)
  {
    var reply := GetAuthSession(t, tok.session).reply;
    var p := if LetIn(t, now, tok) && WellPut(tok, act) then Pending(Ready(tok, act)) else Finished(Rejected);
    GateContinues(t, now, cfg, tok, act, d);
    RunsOn(t, now, cfg, Request.Gate(tok, act), d, reply, p);
  }

  lemma GateContinues(t: Tables, now: Time, cfg: Config, tok: AccessToken, act: Act, d: Draw)
    ensures Continue(Request.Gate(tok, act), GetAuthSession(t, tok.session).reply, now, d, cfg) ==
            if LetIn(t, now, tok) && WellPut(tok, act) then Pending(Ready(tok, act)) else Finished(Rejected)
  {}

  // ---- Sessions ----

  /** Revoke-all revokes the unrevoked sessions of the caller and of nobody else. */
  lemma RevokeAllAlone(t: Tables, now: Time, cfg: Config, tok: AccessToken, d: Draw)
    requires SessionShape(t.sessions) && ReplacementExists(t.sessions)
    ensures var solo := RunAlone(t, now, cfg, Request.Gate(tok, RevokeAll), d);
            if LetIn(t, now, tok) then
              && solo.outcome == Accepted && solo.t == t.(sessions := solo.t.sessions)
              && OnlySubjectRevoked(t.sessions, solo.t.sessions, tok.subject, now, LoggedOut)
            else solo == Solo(t, Rejected)
  {
    GateAlone(t, now, cfg, tok, RevokeAll, d);
    RevokingProgramsAreHandlers(t, now, cfg, tok, tok.session, d);
    RevokeAllTouchesOneSubject(t, now, tok.subject);
  }

  /** Revoking one session is accepted exactly for one of the caller's own; it revokes that one if it is
      unrevoked. */
  lemma RevokeOneAlone(t: Tables, now: Time, cfg: Config, tok: AccessToken, id: Id, d: Draw)
    requires SessionShape(t.sessions) && ReplacementExists(t.sessions)
    ensures var solo := RunAlone(t, now, cfg, Request.Gate(tok, RevokeOne(id)), d);
            if LetIn(t, now, tok) && id in t.sessions && t.sessions[id].subject == tok.subject then
              var row := t.sessions[id];
              solo == Solo(
                if row.revokedAt.Some? then t
                else t.(sessions := t.sessions[id := row.(revokedAt := Some(now), reason := Some(LoggedOut))]),
                Accepted)
            else solo == Solo(t, Rejected)
  {
    GateAlone(t, now, cfg, tok, RevokeOne(id), d);
    RevokingProgramsAreHandlers(t, now, cfg, tok, id, d);
    if id in t.sessions {
      OneRowRevoked(t.sessions, id, now);
    }
  }

  lemma OneRowRevoked(ss: map<Id, Session>, id: Id, now: Time)
    requires id in ss
    ensures RevokeLive(ss, {id}, now, LoggedOut) ==
            if ss[id].revokedAt.Some? then ss
            else ss[id := ss[id].(revokedAt := Some(now), reason := Some(LoggedOut))]
  {}

  /** Logout revokes the token's own session. */
  lemma LogoutRevokesOwnSession(t: Tables, now: Time, cfg: Config, tok: AccessToken, d: Draw)
    requires SessionShape(t.sessions) && ReplacementExists(t.sessions)
    ensures var solo := RunAlone(t, now, cfg, Request.Gate(tok, Logout), d);
            if LetIn(t, now, tok) then
              var row := t.sessions[tok.session];
              solo == Solo(t.(sessions :=
                                t.sessions[tok.session := row.(revokedAt := Some(now), reason := Some(LoggedOut))]),
                           Accepted)
            else solo == Solo(t, Rejected)
  {
    GateAlone(t, now, cfg, tok, Logout, d);
    RevokingProgramsAreHandlers(t, now, cfg, tok, tok.session, d);
    if tok.session in t.sessions {
      OneRowRevoked(t.sessions, tok.session, now);
    }
  }

  // ---- Users ----

  /** Deleting the account is accepted exactly for an active user; it clears that user's active flag,
      revokes that user's unrevoked sessions, and changes nothing else. */
  lemma DeleteUserAlone(t: Tables, now: Time, cfg: Config, tok: AccessToken, d: Draw)
    ensures var solo, u := RunAlone(t, now, cfg, Request.Gate(tok, DeleteUser), d), tok.subject;
            if LetIn(t, now, tok) && tok.kind == UserKind && u in t.users && t.users[u].active then
              && solo.outcome == Accepted
              && solo.t == t.(users := t.users[u := t.users[u].(active := false)], sessions := solo.t.sessions)
              && OnlySubjectRevoked(t.sessions, solo.t.sessions, u, now, UserDeactivated)
            else solo == Solo(t, Rejected)
  {
    GateAlone(t, now, cfg, tok, DeleteUser, d);
    DeletingAlone(t, now, cfg, tok, d);
    DeactivationTouchesOneUser(t, now, tok.subject);
  }

  lemma DeletingAlone(t: Tables, now: Time, cfg: Config, tok: AccessToken, d: Draw)
    ensures RunAlone(t, now, cfg, Ready(tok, DeleteUser), d) == Written(DeactivateUser(t, now, tok.subject))
  {}

  /** A registration whose phone is valid is accepted exactly for an unused id, texts that fit, a 32-bit
      phone and no clash; it adds the active user with the given columns. */
  lemma RegisterAlone(t: Tables, now: Time, cfg: Config,
                      username: string, email: string, passwordHash: string, phoneRaw: string, n: int, d: Draw)
    requires t.users.Keys <= t.subjects.Keys && ValidatePhone(phoneRaw, cfg.phoneRequired) == Ok(n)
    ensures var solo := RunAlone(t, now, cfg, Registering(username, email, passwordHash, phoneRaw), d);
            var row := User(true, username, email, if n == 0 then None else Some(n), passwordHash);
            solo ==
            if d.id !in t.subjects && FitsInt32(n) && UserFits(row) && NoClash(t.users, d.id, row)
            then Solo(t.(subjects := t.subjects[d.id := UserKind], users := t.users[d.id := row]), Accepted)
            else Solo(t, Rejected)
  {
    RegisteringAlone(t, now, cfg, username, email, passwordHash, phoneRaw, n, d);
    CreateUserExactly(t, d.id, true, username, email, passwordHash, n);
  }

  lemma RegisteringAlone(t: Tables, now: Time, cfg: Config,
                         username: string, email: string, passwordHash: string, phoneRaw: string, n: int, d: Draw)
    requires ValidatePhone(phoneRaw, cfg.phoneRequired) == Ok(n)
    ensures RunAlone(t, now, cfg, Registering(username, email, passwordHash, phoneRaw), d)
         == Written(SessionSql.CreateUser(t, d.id, true, username, email, passwordHash, n))
  {}

  /** Who has registered can log in, by username or address or both: with a password that derives the
      same key as the registered one, and with no other. */
  lemma RegisteredUserLogsIn(t: Tables, now: Time, cfg: Config, argon: KeyDerivation,
                             username: string, email: string, password: string,
                             salt: seq<Base64.Byte>, keyLen: nat, phoneRaw: string, n: int, d: Draw,
                             later: Time, login: Login, d': Draw)
    requires UserSchema(t.users, t.subjects) && DerivesRequestedLength(argon) && keyLen < TWO_TO_32
    requires ValidatePhone(phoneRaw, cfg.phoneRequired) == Ok(n)
    requires login.username in {"", username} && login.email in {"", email} && login.username + login.email != ""
    ensures var stored := HashPassword(argon, password, salt, keyLen);
            var solo := RunAlone(t, now, cfg, Registering(username, email, stored, phoneRaw), d);
            solo.outcome == Accepted ==>
              LoggedIn(solo.t, later, cfg, argon, login, d') ==
              if argon(login.password, salt, keyLen) == argon(password, salt, keyLen)
              then Written(CreateAuthSession(solo.t, later, IssueOf(d', cfg, login.client), d.id, d'.family))
              else Solo(solo.t, Rejected)
  {
    var stored := HashPassword(argon, password, salt, keyLen);
    var row := User(true, username, email, if n == 0 then None else Some(n), stored);
    var solo := RunAlone(t, now, cfg, Registering(username, email, stored, phoneRaw), d);
    RegisterAlone(t, now, cfg, username, email, stored, phoneRaw, n, d);
    if solo.outcome == Accepted {
      RegisteredKeepsSchema(t, d.id, row);
      VerifyAgainstHash(argon, password, login.password, salt, keyLen);
      KnownUserLogsIn(solo.t, later, cfg, argon, login, d', d.id);
    }
  }

  /** A login with the name or address of an active user is decided by that user's password. */
  lemma KnownUserLogsIn(t: Tables, now: Time, cfg: Config, argon: KeyDerivation, login: Login, d: Draw, u: Id)
    requires UserSchema(t.users, t.subjects) && u in t.users && t.users[u].active
    requires login.username in {"", t.users[u].username} && login.email in {"", t.users[u].email}
    requires login.username + login.email != ""
    ensures LoggedIn(t, now, cfg, argon, login, d) ==
            if VerifyPassword(argon, login.password, t.users[u].passwordHash) == Ok(true)
            then Written(CreateAuthSession(t, now, IssueOf(d, cfg, login.client), u, d.family))
            else Solo(t, Rejected)
  {
    assert UserFits(t.users[u]);
    forall v | v != u ensures !Identified(t.users, argon, login, v) {
      assert v in t.users ==> Distinct(t.users[u], t.users[v]);
    }
    LoginSucceedsExactly(t, now, cfg, argon, login, d, u);
  }

  lemma RegisteredKeepsSchema(t: Tables, id: Id, row: User)
    requires UserSchema(t.users, t.subjects) && id !in t.subjects && UserFits(row) && NoClash(t.users, id, row)
    ensures UserSchema(t.users[id := row], t.subjects[id := UserKind])
  {
    assert forall j | j in t.users :: j != id && Distinct(row, t.users[j]) && Distinct(t.users[j], row);
  }

  /** The phone column a patch leads to, if its phone is valid. */
  function NewPhone(stored: Option<int>, phone: Option<string>, cfg: Config): Option<Option<int>>
  {
    if phone.None? then Some(stored)
    else
      match ValidatePhone(phone.value, cfg.phoneRequired)
      case Err(_) => None
      case Ok(n) => Some(if n == 0 then None else Some(n))
  }

  /** In a reachable state a patch is accepted exactly with some field, for an active user, with a valid
      phone if one is given, if the new row fits and does not clash; each given column is then as given,
      every other one as it was. */
  lemma PatchAlone(s: System, tok: AccessToken, username: Option<string>, email: Option<string>,
                  phone: Option<string>, d: Draw)
    requires Reachable(s)
    ensures var solo := RunAlone(s.t, s.now, s.cfg, Request.Gate(tok, PatchUser(username, email, phone)), d);
            var u := tok.subject;
            && (solo.outcome == Accepted ==>
                  && LetIn(s.t, s.now, tok) && tok.kind == UserKind && (username.Some? || email.Some? || phone.Some?)
                  && u in s.t.users && s.t.users[u].active && NewPhone(s.t.users[u].phone, phone, s.cfg).Some?
                  && PatchedRow(s.t, solo.t, u, username, email, NewPhone(s.t.users[u].phone, phone, s.cfg).value))
            && (solo.outcome != Accepted ==> solo.t == s.t)
            && (solo.outcome == Accepted <==>
                  && LetIn(s.t, s.now, tok) && tok.kind == UserKind && (username.Some? || email.Some? || phone.Some?)
                  && u in s.t.users && s.t.users[u].active && NewPhone(s.t.users[u].phone, phone, s.cfg).Some?
                  && FitsTable(s.t, u, username, email, NewPhone(s.t.users[u].phone, phone, s.cfg).value))
  {
    ReachableInvariant(s);
    GateAlone(s.t, s.now, s.cfg, tok, PatchUser(username, email, phone), d);
    PatchProgramIsHandler(s.t, s.now, s.cfg, tok, username, email, phone, d);
    PatchedExactly(s.t, s.cfg, tok.subject, username, email, phone);
  }

  /** The row with the given columns replaced. */
  function Replaced(row: User, username: Option<string>, email: Option<string>, phone: Option<int>): User
  {
    User(row.active,
         if username.Some? then username.value else row.username,
         if email.Some? then email.value else row.email,
         phone, row.passwordHash)
  }

  ghost predicate FitsTable(t: Tables, u: Id, username: Option<string>, email: Option<string>, phone: Option<int>)
    requires u in t.users
  {
    var row := Replaced(t.users[u], username, email, phone);
    UserFits(row) && NoClash(t.users, u, row)
  }

  predicate PatchedRow(t: Tables, t': Tables, u: Id, username: Option<string>, email: Option<string>,
                      phone: Option<int>)
    requires u in t.users
  {
    t' == t.(users := t.users[u := Replaced(t.users[u], username, email, phone)])
  }

  lemma PatchedExactly(t: Tables, cfg: Config, u: Id, username: Option<string>, email: Option<string>,
                      phone: Option<string>)
    requires NoZeroPhone(t.users)
    ensures Patched(t, cfg, u, username, email, phone) ==
            if u in t.users && t.users[u].active && NewPhone(t.users[u].phone, phone, cfg).Some?
               && FitsTable(t, u, username, email, NewPhone(t.users[u].phone, phone, cfg).value)
            then Solo(t.(users :=
                           t.users[u := Replaced(t.users[u], username, email,
                                                 NewPhone(t.users[u].phone, phone, cfg).value)]),
                      Accepted)
            else Solo(t, Rejected)
  {
    if u in t.users && t.users[u].active && NewPhone(t.users[u].phone, phone, cfg).Some? {
      var row := Replaced(t.users[u], username, email, NewPhone(t.users[u].phone, phone, cfg).value);
      assert NoClash(t.users, u, row) <==> forall j | j in t.users && j != u :: Distinct(row, t.users[j]);
    }
  }

  // ---- Organizations ----

  /** Creating an organization is accepted exactly for an active user, a name, an unused id and a profile
      that fits; it adds the organization with the caller as owner. */
  lemma CreateOrgAlone(t: Tables, now: Time, cfg: Config, tok: AccessToken, profile: Organization, d: Draw)
    requires OrgSchema(t.orgs, t.subjects) && MemberSchema(t.members, t.users, t.orgs)
    ensures var solo, u := RunAlone(t, now, cfg, Request.Gate(tok, CreateOrg(profile)), d), tok.subject;
            solo ==
            if && LetIn(t, now, tok) && tok.kind == UserKind && profile.name != ""
               && u in t.users && t.users[u].active && d.id !in t.subjects && OrgFits(profile)
            then Solo(t.(subjects := t.subjects[d.id := OrganizationKind], orgs := t.orgs[d.id := profile],
                         members := t.members[MemberKey(u, d.id) := Member(Owner, now)]),
                      Accepted)
            else Solo(t, Rejected)
  {
    GateAlone(t, now, cfg, tok, CreateOrg(profile), d);
    CreatingAlone(t, now, cfg, tok, profile, d);
    CreateOrganizationExactly(t, now, d.id, profile, tok.subject);
  }

  lemma CreatingAlone(t: Tables, now: Time, cfg: Config, tok: AccessToken, profile: Organization, d: Draw)
    ensures RunAlone(t, now, cfg, Ready(tok, CreateOrg(profile)), d)
         == Written(CreateOrganization(t, now, d.id, profile, tok.subject))
  {}

  // ---- Membership ----

  /** The user is active and has this role in the organization. */
  predicate HasRole(t: Tables, org: Id, u: Id, role: Role)
  {
    MemberKey(u, org) in t.members && t.members[MemberKey(u, org)].role == role && u in t.users && t.users[u].active
  }

  /** A live session of a user who is owner or admin of the organization. */
  predicate ByManager(t: Tables, now: Time, tok: AccessToken, org: Id)
  {
    && LetIn(t, now, tok) && tok.kind == UserKind
    && (HasRole(t, org, tok.subject, Owner) || HasRole(t, org, tok.subject, Admin))
  }

  /** An active member of the organization who is not its owner. */
  predicate PlainMember(t: Tables, org: Id, u: Id)
  {
    && MemberKey(u, org) in t.members && t.members[MemberKey(u, org)].role != Owner
    && u in t.users && t.users[u].active
  }

  /** Adding a member is accepted exactly from an owner or admin, for the admin, editor or viewer role and
      an active user who is no member yet; it adds that user's row with that role. */
  lemma AddAlone(s: System, tok: AccessToken, org: Id, target: Id, role: Role, d: Draw)
    requires Reachable(s)
    ensures RunAlone(s.t, s.now, s.cfg, Request.Gate(tok, OnOrg(AddMember(org, target, role))), d) ==
            if && ByManager(s.t, s.now, tok, org) && role in {Admin, Editor, Viewer}
               && target in s.t.users && s.t.users[target].active && MemberKey(target, org) !in s.t.members
            then Solo(s.t.(members := s.t.members[MemberKey(target, org) := Member(role, s.now)]), Accepted)
            else Solo(s.t, Rejected)
  {
    ReachableInvariant(s);
    ProgramIsHandler(s.t, s.now, s.cfg, tok, AddMember(org, target, role), d);
    AdmittedExactly(s.t, s.now, tok, AddMember(org, target, role));
    if Admitted(s.t, s.now, tok, AddMember(org, target, role)) {
      AddRulesExactly(s.t, tok, org, target, role);
    }
    AddMemberExactly(s.t, s.now, org, target, tok.subject, role);
  }

  lemma AddRulesExactly(t: Tables, tok: AccessToken, org: Id, target: Id, role: Role)
    requires role in {Admin, Editor, Viewer}
    requires HasRole(t, org, tok.subject, Owner) || HasRole(t, org, tok.subject, Admin)
    ensures RulesAllow(t, tok, AddMember(org, target, role))
  {}

  /** Gate, authorizer and body check let an operation through exactly so. */
  lemma AdmittedExactly(t: Tables, now: Time, tok: AccessToken, op: OrgOp)
    ensures Admitted(t, now, tok, op) <==>
            && LetIn(t, now, tok) && tok.kind == UserKind
            && match op
               case DeleteOrg(org) => HasRole(t, org, tok.subject, Owner)
               case AddMember(org, _, role) => ByManager(t, now, tok, org) && role in {Admin, Editor, Viewer}
               case UpdateRole(org, _, role) => ByManager(t, now, tok, org) && role in {Admin, Editor, Viewer}
               case RemoveMember(org, _) => ByManager(t, now, tok, org)
  {
    var key := MemberKey(tok.subject, op.org);
    if key in t.members {
      PermissionsExactly(t.members[key].role, op.Action());
    }
  }

  /** In a reachable state no organization has a second owner to spare. */
  lemma NoSpareOwner(s: System, org: Id)
    requires Reachable(s) && org in s.t.orgs
    ensures OwnerCount(RolesOf(s.t, org)) <= 1
  {
    var run :| IsRun(run) && s == run.states[|run.states| - 1];
    ExactlyOneOwner(run, |run.states| - 1, org);
    TwoOwnersCounted(s.t, org);
    var owner := s.creators[org];
    assert forall u | HasOwnerRow(s.t.members, org, u) :: MemberKey(u, org).user == owner;
  }

  /** Changing a role is accepted exactly from an owner or admin, to the admin, editor or viewer role and
      for an active member other than the owner; it changes the role of that member's row. */
  lemma UpdateAlone(s: System, tok: AccessToken, org: Id, target: Id, role: Role, d: Draw)
    requires Reachable(s)
    ensures RunAlone(s.t, s.now, s.cfg, Request.Gate(tok, OnOrg(UpdateRole(org, target, role))), d) ==
            if ByManager(s.t, s.now, tok, org) && role in {Admin, Editor, Viewer} && PlainMember(s.t, org, target)
            then
              var key := MemberKey(target, org);
              Solo(s.t.(members := s.t.members[key := Member(role, s.t.members[key].createdAt)]), Accepted)
            else Solo(s.t, Rejected)
  {
    ReachableInvariant(s);
    var op := UpdateRole(org, target, role);
    ProgramIsHandler(s.t, s.now, s.cfg, tok, op, d);
    AdmittedExactly(s.t, s.now, tok, op);
    if Admitted(s.t, s.now, tok, op) {
      assert MemberKey(tok.subject, org) in s.t.members && org in s.t.orgs;
      NoSpareOwner(s, org);
      UpdateRulesExactly(s.t, tok, org, target, role);
    }
    UpdateMemberExactly(s.t, org, target, tok.subject, role);
  }

  lemma UpdateRulesExactly(t: Tables, tok: AccessToken, org: Id, target: Id, role: Role)
    requires MemberSchema(t.members, t.users, t.orgs) && OwnerCount(RolesOf(t, org)) <= 1
    requires role in {Admin, Editor, Viewer}
    requires HasRole(t, org, tok.subject, Owner) || HasRole(t, org, tok.subject, Admin)
    ensures RulesAllow(t, tok, UpdateRole(org, target, role)) <==> PlainMember(t, org, target)
  {
    if MemberKey(target, org) in t.members {
      assert IsValidRole(t.members[MemberKey(target, org)].role);
    }
  }

  /** Removing a member is accepted exactly from an owner or admin and for an active member other than the
      owner; that member's row goes. */
  lemma RemoveAlone(s: System, tok: AccessToken, org: Id, target: Id, d: Draw)
    requires Reachable(s)
    ensures RunAlone(s.t, s.now, s.cfg, Request.Gate(tok, OnOrg(RemoveMember(org, target))), d) ==
            if ByManager(s.t, s.now, tok, org) && PlainMember(s.t, org, target)
            then Solo(s.t.(members := map k | k in s.t.members && k != MemberKey(target, org) :: s.t.members[k]),
                      Accepted)
            else Solo(s.t, Rejected)
  {
    ReachableInvariant(s);
    var op := RemoveMember(org, target);
    ProgramIsHandler(s.t, s.now, s.cfg, tok, op, d);
    AdmittedExactly(s.t, s.now, tok, op);
    if Admitted(s.t, s.now, tok, op) {
      assert MemberKey(tok.subject, org) in s.t.members && org in s.t.orgs;
      NoSpareOwner(s, org);
    }
    RemoveMemberExactly(s.t, org, target, tok.subject);
  }

  /** Deleting an organization is accepted exactly from its creator, active and with a live session; the
      organization, its subject and all its membership rows go. */
  lemma DeleteAlone(s: System, tok: AccessToken, org: Id, d: Draw)
    requires Reachable(s)
    ensures RunAlone(s.t, s.now, s.cfg, Request.Gate(tok, OnOrg(DeleteOrg(org))), d) ==
            if && LetIn(s.t, s.now, tok) && tok.kind == UserKind
               && tok.subject in s.t.users && s.t.users[tok.subject].active
               && org in s.t.orgs && org in s.creators && s.creators[org] == tok.subject
            then Solo(s.t.(subjects := s.t.subjects - {org}, orgs := s.t.orgs - {org},
                           members := map k | k in s.t.members && k.org != org :: s.t.members[k]),
                      Accepted)
            else Solo(s.t, Rejected)
  {
    ReachableInvariant(s);
    SoundSubjects(s.t);
    ProgramIsHandler(s.t, s.now, s.cfg, tok, DeleteOrg(org), d);
    AdmittedExactly(s.t, s.now, tok, DeleteOrg(org));
    DeleteOrganizationExactly(s.t, org, tok.subject);
    OwnerIsCreator(s, org, tok.subject);
  }

  lemma OwnerIsCreator(s: System, org: Id, u: Id)
    requires Reachable(s)
    ensures HasOwnerRow(s.t.members, org, u) <==> org in s.t.orgs && org in s.creators && s.creators[org] == u
  {
    ReachableInvariant(s);
    var run :| IsRun(run) && s == run.states[|run.states| - 1];
    if org in s.t.orgs {
      ExactlyOneOwner(run, |run.states| - 1, org);
    }
    if HasOwnerRow(s.t.members, org, u) {
      assert MemberKey(u, org).org in s.t.orgs;
    }
  }
}
