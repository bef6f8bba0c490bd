/** The handlers as programs over the Database interface: each request is a program counter
    with its local variables, makes one database call at a time, and goes on from the reply. */
module Requests {
  import opened Outcomes
  import opened Credentials
  import opened Schema
  import opened SessionSql
  import opened MembershipSql
  import opened Rbac
  import Base64
  import Text

  // ---- The Database interface ----

  datatype DbCall =
    | CallGetUserByLogin(username: string, email: string)
    | CallGetUserById(id: Id)
    | CallCreateUser(id: Id, username: string, email: string, passwordHash: string, phone: int)
    | CallUpdateUser(id: Id, username: string, email: string, phoneText: string)
    | CallDeactivateUser(id: Id)
    | CallCreateAuthSession(issue: Issue, subject: Id, family: Id)
    | CallGetAuthSession(id: Id)
    | CallRefreshAuthSession(oldHash: TokenHash, issue: Issue)
    | CallRevokeAuthSession(id: Id, subject: Id)
    | CallRevokeAllAuthSessions(subject: Id)
    | CallCreateOrganization(org: Id, profile: Organization, owner: Id)
    | CallDeleteOrganization(org: Id, caller: Id)
    | CallListOrganizationMembers(org: Id, caller: Id)
    | CallAddOrganizationMember(org: Id, user: Id, caller: Id, role: Role)
    | CallGetOrganizationMember(org: Id, user: Id, caller: Id)
    | CallUpdateOrganizationMemberRole(org: Id, user: Id, caller: Id, role: Role)
    | CallRemoveOrganizationMember(org: Id, user: Id, caller: Id)

  /** One atomic database call. Handlers revoke single sessions only as a logout without replacement. */
  ghost function Apply(t: Tables, now: Time, call: DbCall): Effect
  {
    match call
    case CallGetUserByLogin(username, email) => GetUserByLogin(t, username, email)
    case CallGetUserById(id) => GetUserById(t, id)
    case CallCreateUser(id, username, email, passwordHash, phone) =>
      CreateUser(t, id, true, username, email, passwordHash, phone)
    case CallUpdateUser(id, username, email, phoneText) => UpdateUser(t, id, username, email, phoneText)
    case CallDeactivateUser(id) => DeactivateUser(t, now, id)
    case CallCreateAuthSession(issue, subject, family) => CreateAuthSession(t, now, issue, subject, family)
    case CallGetAuthSession(id) => GetAuthSession(t, id)
    case CallRefreshAuthSession(oldHash, issue) => RefreshAuthSession(t, now, oldHash, issue)
    case CallRevokeAuthSession(id, subject) => RevokeAuthSession(t, now, id, subject, LoggedOut, None)
    case CallRevokeAllAuthSessions(subject) => RevokeAllAuthSessions(t, now, subject)
    case CallCreateOrganization(org, profile, owner) => CreateOrganization(t, now, org, profile, owner)
    case CallDeleteOrganization(org, caller) => DeleteOrganization(t, org, caller)
    case CallListOrganizationMembers(org, caller) => ListOrganizationMembers(t, org, caller)
    case CallAddOrganizationMember(org, user, caller, role) => AddOrganizationMember(t, now, org, user, caller, role)
    case CallGetOrganizationMember(org, user, caller) => GetOrganizationMember(t, org, user, caller)
    case CallUpdateOrganizationMemberRole(org, user, caller, role) =>
      UpdateOrganizationMemberRole(t, org, user, caller, role)
    case CallRemoveOrganizationMember(org, user, caller) => RemoveOrganizationMember(t, org, user, caller)
  }

  // ---- Requests ----

  /** What an access token says once its signature is verified. */
  datatype AccessToken = AccessToken(subject: Id, session: Id, kind: Kind, expiresAt: Time)

  /** Operations on an existing organization, all behind the authorizer. */
  datatype OrgOp =
    | DeleteOrg(org: Id)
    | AddMember(org: Id, target: Id, role: Role)
    | UpdateRole(org: Id, target: Id, role: Role)
    | RemoveMember(org: Id, target: Id)
  {
    function Action(): Action
    {
      match this
      case DeleteOrg(_) => OrganizationDelete
      case AddMember(_, _, _) => MemberAdd
      case UpdateRole(_, _, _) => MemberUpdate
      case RemoveMember(_, _) => MemberRemove
    }

    /** Validation of the request body, done after authorization. */
    predicate BodyAccepted()
    {
      match this
      case AddMember(_, _, role) => IsValidRole(role) && IsAssignableRole(role)
      case UpdateRole(_, _, role) => IsValidRole(role) && role != Owner
      case _ => true
    }

    function Write(caller: Id): DbCall
    {
      match this
      case DeleteOrg(org) => CallDeleteOrganization(org, caller)
      case AddMember(org, target, role) => CallAddOrganizationMember(org, target, caller, role)
      case UpdateRole(org, target, role) => CallUpdateOrganizationMemberRole(org, target, caller, role)
      case RemoveMember(org, target) => CallRemoveOrganizationMember(org, target, caller)
    }
  }

  /** What a request behind the live-session gate is for. */
  datatype Act =
    | Logout
    | RevokeAll
    | RevokeOne(session: Id)
    | DeleteUser
    | PatchUser(username: Option<string>, email: Option<string>, phone: Option<string>)
    | CreateOrg(profile: Organization)
    | OnOrg(op: OrgOp)
  {
    /** Handlers that take the caller from the user identity of the token. */
    predicate NeedsUser()
    {
      !Logout? && !RevokeAll? && !RevokeOne?
    }
  }

  datatype Request =
    | LoginLookup(username: string, email: string, client: Client)
    | LoginCreate(user: Id, client: Client)
    | Refreshing(cookie: string, client: Client)
    | Registering(username: string, email: string, passwordHash: string, phoneRaw: string)
    | Gate(tok: AccessToken, act: Act)
    | Ready(tok: AccessToken, act: Act)
    | PatchWrite(tok: AccessToken, id: Id, username: string, email: string, phoneText: string)
    | Authorized(tok: AccessToken, op: OrgOp)
    | TargetRead(tok: AccessToken, op: OrgOp, targetRole: Role)
    | Counting(tok: AccessToken, op: OrgOp)
    | Writing(tok: AccessToken, op: OrgOp)
  {
    /** A bound on the database calls still to come. */
    function Remaining(): nat
    {
      match this
      case Gate(_, _) => 6
      case Ready(_, _) => 5
      case Authorized(_, _) => 4
      case TargetRead(_, _, _) => 3
      case Counting(_, _) => 2
      case LoginLookup(_, _, _) => 2
      case _ => 1
    }
  }

  datatype Outcome = Accepted | Rejected | Errored

  datatype Progress = Pending(next: Request) | Finished(outcome: Outcome)

  /** Configuration read by the handlers; times to live may be any integer. */
  datatype Config = Config(refreshTokenLen: nat, sessionTtl: int, tokenTtl: int, phoneRequired: bool)

  /** What a handler takes from its environment around one database call: new UUIDs, random
      bytes, a clock reading no later than the call, and the verdict of the password check. */
  datatype Draw = Draw(id: Id, family: Id, raw: seq<Base64.Byte>, readAt: Time, passwordMatches: bool)

  function PresentedHash(cookie: string): TokenHash
  {
    HashRefreshToken(Text.TrimSpace(cookie))
  }

  function PhoneNumber(phoneRaw: string, cfg: Config): int
  {
    var v := ValidatePhone(phoneRaw, cfg.phoneRequired);
    if v.Ok? then v.value else 0
  }

  /** The session columns that login and refresh supply: a new id, the hash of new random bytes,
      the expiry from the clock reading, and the client of the request. */
  function IssueOf(d: Draw, cfg: Config, client: Client): Issue
  {
    Issue(d.id, CreateRefreshTokenPair(d.raw).hash, d.readAt + cfg.sessionTtl, client)
  }

  /** The database call a request makes next. */
  function NextCall(r: Request, d: Draw, cfg: Config): DbCall
  {
    match r
    case LoginLookup(username, email, _) => CallGetUserByLogin(username, email)
    case LoginCreate(user, client) => CallCreateAuthSession(IssueOf(d, cfg, client), user, d.family)
    case Refreshing(cookie, client) => CallRefreshAuthSession(PresentedHash(cookie), IssueOf(d, cfg, client))
    case Registering(username, email, passwordHash, phoneRaw) =>
      CallCreateUser(d.id, username, email, passwordHash, PhoneNumber(phoneRaw, cfg))
    case Gate(tok, _) => CallGetAuthSession(tok.session)
    case Ready(tok, act) =>
      (match act
       case Logout => CallRevokeAuthSession(tok.session, tok.subject)
       case RevokeAll => CallRevokeAllAuthSessions(tok.subject)
       case RevokeOne(session) => CallRevokeAuthSession(session, tok.subject)
       case DeleteUser => CallDeactivateUser(tok.subject)
       case PatchUser(_, _, _) => CallGetUserById(tok.subject)
       case CreateOrg(profile) => CallCreateOrganization(d.id, profile, tok.subject)
       case OnOrg(op) => CallGetOrganizationMember(op.org, tok.subject, tok.subject))
    case PatchWrite(_, id, username, email, phoneText) => CallUpdateUser(id, username, email, phoneText)
    case Authorized(tok, op) =>
      (match op
       case UpdateRole(org, target, _) => CallGetOrganizationMember(org, target, tok.subject)
       case RemoveMember(org, target) => CallGetOrganizationMember(org, target, tok.subject)
       case _ => CallGetOrganizationMember(op.org, tok.subject, tok.subject))
    case TargetRead(tok, op, _) => CallGetOrganizationMember(op.org, tok.subject, tok.subject)
    case Counting(tok, op) => CallListOrganizationMembers(op.org, tok.subject)
    case Writing(tok, op) => op.Write(tok.subject)
  }

  /** The live-session gate's decision on the row it read. */
  predicate GatePasses(row: Session, subject: Id, now: Time)
  {
    row.Live() && now < row.expiresAt && row.subject == subject
  }

  function OwnersAmong(roles: map<Id, Role>): set<Id>
  {
    set u | u in roles && roles[u] == Owner
  }

  function OwnerCount(roles: map<Id, Role>): nat
  {
    |OwnersAmong(roles)|
  }

  function Rank(role: Role): int
  {
    var r := RoleRank(role);
    if r.Some? then r.value else 0
  }

  /** What the request does with the reply: another call, or its outcome. */
  function Continue(r: Request, reply: Reply, now: Time, d: Draw, cfg: Config): (p: Progress)
    ensures p.Pending? ==> p.next.Remaining() < r.Remaining()
  {
    match r
    case LoginLookup(_, _, client) =>
      if reply.UserReply? && reply.user.active && d.passwordMatches then Pending(LoginCreate(reply.userId, client))
      else Finished(Rejected)
    case Gate(tok, act) =>
      if !reply.SessionReply? || !GatePasses(reply.session, tok.subject, now) then Finished(Rejected)
      else if act.NeedsUser() && tok.kind != UserKind then Finished(Rejected)
      else if act.CreateOrg? && act.profile.name == "" then Finished(Rejected)
      else if act.PatchUser? && act.username.None? && act.email.None? && act.phone.None? then Finished(Rejected)
      else Pending(Ready(tok, act))
    case Ready(tok, PatchUser(username, email, phone)) =>
      if !reply.UserReply? || !reply.user.active then Finished(Rejected)
      else
        var number :=
          if phone.None? then Ok(PhoneInt(reply.user.phone)) else ValidatePhone(phone.value, cfg.phoneRequired);
        if number.Err? then Finished(Rejected)
        else Pending(PatchWrite(tok, reply.userId,
          if username.Some? then username.value else reply.user.username,
          if email.Some? then email.value else reply.user.email,
          PhoneText(number.value)))
    case Ready(tok, OnOrg(op)) =>
      if !reply.MemberReply? || !Permits(reply.role, op.Action()) || !op.BodyAccepted() then Finished(Rejected)
      else if op.DeleteOrg? then Pending(Writing(tok, op))
      else Pending(Authorized(tok, op))
    case Ready(tok, Logout) =>
      Finished(if reply.Failed? && reply.error != TokenNotFound then Errored else Accepted)
    case Authorized(tok, op) =>
      if !reply.MemberReply? then Finished(if op.AddMember? then Errored else Rejected)
      else
        (match op
         case AddMember(_, _, role) =>
           if RoleRank(reply.role).None? || Rank(role) > Rank(reply.role) then Finished(Rejected)
           else Pending(Writing(tok, op))
         case UpdateRole(_, _, _) => Pending(TargetRead(tok, op, reply.role))
         case RemoveMember(_, _) =>
           if reply.role == Owner then Pending(TargetRead(tok, op, reply.role)) else Pending(Writing(tok, op))
         case DeleteOrg(_) => Finished(Errored))
    case TargetRead(tok, op, targetRole) =>
      if !reply.MemberReply? then Finished(Errored)
      else if op.UpdateRole? then
        if RoleRank(reply.role).None? then Finished(Rejected)
        else if RoleRank(targetRole).None? then Finished(Errored)
        else if Rank(targetRole) > Rank(reply.role) || Rank(op.role) > Rank(reply.role) then Finished(Rejected)
        else if targetRole == Owner then Pending(Counting(tok, op))
        else Pending(Writing(tok, op))
      else if reply.role != Owner then Finished(Rejected)
      else Pending(Counting(tok, op))
    case Counting(tok, op) =>
      if !reply.MembersReply? then Finished(Errored)
      else if OwnerCount(reply.roles) <= 1 then Finished(Rejected)
      else Pending(Writing(tok, op))
    case _ => Finished(if reply.Failed? then Rejected else Accepted)
  }
}
