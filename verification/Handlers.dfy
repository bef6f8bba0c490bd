/** The handlers themselves, as sequential code over the database class. */
module Handlers {
  import opened Schema
  import opened SessionSql
  import opened MembershipSql
  import opened Rbac
  import opened Requests
  import opened Database
  import opened Gate

  /** requireLiveSessionMiddleware. */
  method RequireLiveSession(db: PsqlDB, tok: AccessToken) returns (ok: bool)
    requires db.Valid()
    ensures ok <==> IsLiveSession(db.View(), db.clock, tok.session, tok.subject)
  {
    GateIsLiveSession(db.View(), db.clock, tok);
    var reply := db.GetAuthSession(tok.session);
    if reply.Failed? {
      return false;
    }
    var session := reply.session;
    if session.revokedAt.Some? || session.expiresAt <= db.clock {
      return false;
    }
    if session.subject != tok.subject {
      return false;
    }
    return true;
  }

  // ---- Session list ----

  datatype SessionItem = SessionItem(id: Id, isCurrent: bool, createdAt: Time, expiresAt: Time)

  method ToAuthSessionsResponse(ss: map<Id, Session>, rows: seq<Id>, current: Id) returns (out: seq<SessionItem>)
    requires forall i | 0 <= i < |rows| :: rows[i] in ss
    ensures |out| == |rows|
    ensures forall i | 0 <= i < |rows| ::
      out[i] == SessionItem(rows[i], rows[i] == current, ss[rows[i]].createdAt, ss[rows[i]].expiresAt)
  {
    out := [];
    for i := 0 to |rows|
      invariant |out| == i
      invariant forall k | 0 <= k < i ::
        out[k] == SessionItem(rows[k], rows[k] == current, ss[rows[k]].createdAt, ss[rows[k]].expiresAt)
    {
      out := out + [SessionItem(rows[i], rows[i] == current, ss[rows[i]].createdAt, ss[rows[i]].expiresAt)];
    }
  }

  /** The list holds exactly the subject's unrevoked, unexpired sessions, newest first, no two of
      one family; one entry is marked current if the token's session is live, and none otherwise. */
  method AuthSessionsList(db: PsqlDB, tok: AccessToken) returns (items: seq<SessionItem>)
    requires db.Valid()
    ensures forall k | 0 <= k < |items| ::
      && items[k].id in db.sessions && db.sessions[items[k].id].subject == tok.subject
      && db.sessions[items[k].id].revokedAt.None? && db.clock < items[k].expiresAt
      && items[k].createdAt == db.sessions[items[k].id].createdAt
      && items[k].expiresAt == db.sessions[items[k].id].expiresAt
      && (items[k].isCurrent <==> items[k].id == tok.session)
    ensures forall id
      | && id in db.sessions && db.sessions[id].subject == tok.subject
        && db.sessions[id].revokedAt.None? && db.clock < db.sessions[id].expiresAt ::
      exists k :: 0 <= k < |items| && items[k].id == id
    ensures forall j, k | 0 <= j < k < |items| ::
      && items[j].createdAt >= items[k].createdAt
      && db.sessions[items[j].id].family != db.sessions[items[k].id].family
      && !(items[j].isCurrent && items[k].isCurrent)
    ensures (exists k :: 0 <= k < |items| && items[k].isCurrent)
       <==> IsLiveSession(db.View(), db.clock, tok.session, tok.subject)
  {
    var rows := db.ListAuthSessions(tok.subject);
    ListedOncePerFamily(db.View(), db.clock, tok.subject);
    GateIsLiveSession(db.View(), db.clock, tok);
    items := ToAuthSessionsResponse(db.sessions, rows, tok.session);
    ghost var listed := ListedSessions(db.View(), db.clock, tok.subject);
    forall id | id in listed ensures exists k :: 0 <= k < |items| && items[k].id == id {
      var k :| 0 <= k < |rows| && rows[k] == id;
      assert items[k].id == id;
    }
    assert Accepts(db.View(), db.clock, tok) <==> tok.session in listed;
  }

  // ---- Authorization ----

  method Authorize(db: PsqlDB, caller: Id, action: Action, org: Id) returns (allowed: bool)
    ensures allowed <==>
            ActiveMember(db.View(), org, caller) && Permits(db.members[MemberKey(caller, org)].role, action)
    ensures action == OrganizationDelete ==>
              (allowed <==> ActiveMember(db.View(), org, caller) && db.members[MemberKey(caller, org)].role == Owner)
    ensures action in {MemberAdd, MemberUpdate, MemberRemove} ==>
              (allowed <==> ActiveMember(db.View(), org, caller)
                            && db.members[MemberKey(caller, org)].role in {Owner, Admin})
  {
    var membership := db.GetOrganizationMember(org, caller, caller);
    if membership.Failed? {
      return false;
    }
    if membership.role !in ROLE_PERMISSIONS {
      return false;
    }
    return action in ROLE_PERMISSIONS[membership.role];
  }

  /** The users of the rows with the owner role. */
  function OwnersIn(ms: map<MemberKey, Member>, rows: seq<MemberKey>): set<Id>
    requires forall i | 0 <= i < |rows| :: rows[i] in ms
  {
    set i | 0 <= i < |rows| && ms[rows[i]].role == Owner :: rows[i].user
  }

  /** The counting loop of assertNotLastOwner: over distinct rows of one organization it counts
      distinct users. */
  method CountOwners(ms: map<MemberKey, Member>, rows: seq<MemberKey>, org: Id) returns (ownerCount: nat)
    requires forall i | 0 <= i < |rows| :: rows[i] in ms && rows[i].org == org
    requires forall i, j | 0 <= i < j < |rows| :: rows[i] != rows[j]
    ensures ownerCount == |OwnersIn(ms, rows)|
  {
    ownerCount := 0;
    for i := 0 to |rows|
      invariant ownerCount == |OwnersIn(ms, rows[..i])|
    {
      OwnersInSnoc(ms, rows, i);
      if ms[rows[i]].role == Owner {
        ownerCount := ownerCount + 1;
      }
    }
    assert rows[..|rows|] == rows;
  }

  lemma OwnersInSnoc(ms: map<MemberKey, Member>, rows: seq<MemberKey>, i: nat)
    requires i < |rows|
    requires forall k | 0 <= k < |rows| :: rows[k] in ms && rows[k].org == rows[i].org
    requires forall j, k | 0 <= j < k < |rows| :: rows[j] != rows[k]
    ensures OwnersIn(ms, rows[..i + 1]) ==
            if ms[rows[i]].role == Owner then OwnersIn(ms, rows[..i]) + {rows[i].user} else OwnersIn(ms, rows[..i])
    ensures rows[i].user !in OwnersIn(ms, rows[..i])
  {
    var a, b := rows[..i], rows[..i + 1];
    assert b == a + [rows[i]];
    forall u
      ensures u in OwnersIn(ms, b) <==> u in OwnersIn(ms, a) || (ms[rows[i]].role == Owner && u == rows[i].user)
    {
      if u in OwnersIn(ms, a) {
        var k :| 0 <= k < |a| && ms[a[k]].role == Owner && a[k].user == u;
        assert b[k] == a[k];
      }
      if ms[rows[i]].role == Owner && u == rows[i].user {
        assert b[i] == rows[i];
      }
    }
  }

  lemma OwnersListed(t: Tables, org: Id, rows: seq<MemberKey>)
    requires forall k :: k in rows <==> k in t.members && k.org == org
    ensures OwnersIn(t.members, rows) == OwnersAmong(RolesOf(t, org))
  {
    var owners := OwnersAmong(RolesOf(t, org));
    forall u ensures u in OwnersIn(t.members, rows) <==> u in owners {
      var key := MemberKey(u, org);
      if u in owners {
        assert key in rows;
      }
      if u in OwnersIn(t.members, rows) {
        var i :| 0 <= i < |rows| && t.members[rows[i]].role == Owner && rows[i].user == u;
        assert rows[i] in rows && rows[i] == key;
      }
    }
  }

  /** assertNotLastOwner: passes exactly when the caller is an active member and the organization
      has at least two owner rows. */
  method AssertNotLastOwner(db: PsqlDB, org: Id, caller: Id) returns (ok: bool)
    ensures ok <==> ActiveMember(db.View(), org, caller) && OwnerCount(RolesOf(db.View(), org)) >= 2
  {
    var members := db.ListOrganizationMembers(org, caller);
    forall i | 0 <= i < |members| ensures members[i] in db.members && members[i].org == org {
      assert members[i] in members;
    }
    var ownerCount := CountOwners(db.members, members, org);
    if ActiveMember(db.View(), org, caller) {
      OwnersListed(db.View(), org, members);
    }
    return ownerCount > 1;
  }

  // ---- Membership writes ----

  /** Gate, user identity, authorizer and body validation let the operation through. */
  ghost predicate Admitted(t: Tables, now: Time, tok: AccessToken, op: OrgOp)
  {
    && IsLiveSession(t, now, tok.session, tok.subject) && tok.kind == UserKind
    && ActiveMember(t, op.org, tok.subject) && Permits(RoleIn(t, op.org, tok.subject), op.Action())
    && op.BodyAccepted()
  }

  function RoleIn(t: Tables, org: Id, user: Id): Role
    requires MemberKey(user, org) in t.members
  {
    t.members[MemberKey(user, org)].role
  }

  /** The rules of each handler beyond admission: nobody hands out or touches a role above their
      own, and an owner is only demoted or removed by an owner while another owner remains. */
  ghost predicate RulesAllow(t: Tables, tok: AccessToken, op: OrgOp)
    requires MemberKey(tok.subject, op.org) in t.members
  {
    var callerRole := RoleIn(t, op.org, tok.subject);
    match op
    case DeleteOrg(_) => true
    case AddMember(_, _, role) => RoleRank(callerRole).Some? && Rank(role) <= Rank(callerRole)
    case UpdateRole(org, target, role) =>
      && ActiveMember(t, org, target)
      && var targetRole := RoleIn(t, org, target);
      && RoleRank(callerRole).Some? && RoleRank(targetRole).Some?
      && Rank(targetRole) <= Rank(callerRole) && Rank(role) <= Rank(callerRole)
      && (targetRole == Owner ==> OwnerCount(RolesOf(t, org)) >= 2)
    case RemoveMember(org, target) =>
      && ActiveMember(t, org, target)
      && (RoleIn(t, org, target) == Owner ==> callerRole == Owner && OwnerCount(RolesOf(t, org)) >= 2)
  }

  ghost predicate ReachesWrite(t: Tables, now: Time, tok: AccessToken, op: OrgOp)
  {
    Admitted(t, now, tok, op) && RulesAllow(t, tok, op)
  }

  /** Tables and outcome after a request has run to its end. */
  datatype Solo = Solo(t: Tables, outcome: Outcome)

  /** What a handler without interference does: the operation's write if it is reached, nothing
      otherwise. */
  ghost function Handled(t: Tables, now: Time, tok: AccessToken, op: OrgOp): Solo
  {
    if ReachesWrite(t, now, tok, op) then Written(WriteEffect(t, now, op, tok.subject)) else Solo(t, Rejected)
  }

  /** The SQL of an operation's write. */
  function WriteEffect(t: Tables, now: Time, op: OrgOp, caller: Id): Effect
  {
    match op
    case DeleteOrg(org) => MembershipSql.DeleteOrganization(t, org, caller)
    case AddMember(org, target, role) => AddOrganizationMember(t, now, org, target, caller, role)
    case UpdateRole(org, target, role) => UpdateOrganizationMemberRole(t, org, target, caller, role)
    case RemoveMember(org, target) => RemoveOrganizationMember(t, org, target, caller)
  }

  function Written(e: Effect): Solo
  {
    Solo(e.t, if e.reply.Failed? then Rejected else Accepted)
  }

  method Admit(db: PsqlDB, tok: AccessToken, op: OrgOp) returns (admitted: bool)
    requires db.Valid()
    ensures admitted <==> Admitted(db.View(), db.clock, tok, op)
  {
    var live := RequireLiveSession(db, tok);
    if !live || tok.kind != UserKind {
      return false;
    }
    var allowed := Authorize(db, tok.subject, op.Action(), op.org);
    return allowed && op.BodyAccepted();
  }

  /** AddMember between authorization and write. */
  method CheckAdd(db: PsqlDB, tok: AccessToken, op: OrgOp) returns (verdict: Outcome)
    requires op.AddMember? && ActiveMember(db.View(), op.org, tok.subject)
    ensures verdict == if RulesAllow(db.View(), tok, op) then Accepted else Rejected
  {
    var callerMember := db.GetOrganizationMember(op.org, tok.subject, tok.subject);
    if callerMember.Failed? {
      return Errored;
    }
    var callerRank := RoleRank(callerMember.role);
    if callerRank.None? || Rank(op.role) > callerRank.value {
      return Rejected;
    }
    return Accepted;
  }

  /** UpdateMemberRole between authorization and write. */
  method CheckUpdate(db: PsqlDB, tok: AccessToken, op: OrgOp) returns (verdict: Outcome)
    requires op.UpdateRole? && op.role != Owner && ActiveMember(db.View(), op.org, tok.subject)
    requires MemberSchema(db.members, db.users, db.orgs)
    ensures verdict == if RulesAllow(db.View(), tok, op) then Accepted else Rejected
  {
    var targetMember := db.GetOrganizationMember(op.org, op.target, tok.subject);
    if targetMember.Failed? {
      return Rejected;
    }
    var callerMember := db.GetOrganizationMember(op.org, tok.subject, tok.subject);
    if callerMember.Failed? {
      return Errored;
    }
    var callerRank := RoleRank(callerMember.role);
    if callerRank.None? {
      return Rejected;
    }
    var targetRank := RoleRank(targetMember.role);
    if targetRank.None? {
      return Errored;
    }
    if targetRank.value > callerRank.value || Rank(op.role) > callerRank.value {
      return Rejected;
    }
    if targetMember.role == Owner && op.role != Owner {
      var spare := AssertNotLastOwner(db, op.org, tok.subject);
      if !spare {
        return Rejected;
      }
    }
    return Accepted;
  }

  /** RemoveMember between authorization and write. */
  method CheckRemove(db: PsqlDB, tok: AccessToken, op: OrgOp) returns (verdict: Outcome)
    requires op.RemoveMember? && ActiveMember(db.View(), op.org, tok.subject)
    ensures verdict == if RulesAllow(db.View(), tok, op) then Accepted else Rejected
  {
    var targetMember := db.GetOrganizationMember(op.org, op.target, tok.subject);
    if targetMember.Failed? {
      return Rejected;
    }
    if targetMember.role == Owner {
      var callerMember := db.GetOrganizationMember(op.org, tok.subject, tok.subject);
      if callerMember.Failed? {
        return Errored;
      }
      if callerMember.role != Owner {
        return Rejected;
      }
      var spare := AssertNotLastOwner(db, op.org, tok.subject);
      if !spare {
        return Rejected;
      }
    }
    return Accepted;
  }

  /** Everything a handler does before its write. */
  method Decide(db: PsqlDB, tok: AccessToken, op: OrgOp) returns (verdict: Outcome)
    requires db.Valid()
    ensures verdict == if ReachesWrite(db.View(), db.clock, tok, op) then Accepted else Rejected
  {
    var admitted := Admit(db, tok, op);
    if !admitted {
      return Rejected;
    }
    match op {
      case DeleteOrg(_) => return Accepted;
      case AddMember(_, _, _) => verdict := CheckAdd(db, tok, op);
      case UpdateRole(_, _, _) => verdict := CheckUpdate(db, tok, op);
      case RemoveMember(_, _) => verdict := CheckRemove(db, tok, op);
    }
  }

  /** The write at the end of a handler. */
  method Commit(db: PsqlDB, tok: AccessToken, op: OrgOp) returns (outcome: Outcome)
    requires db.Valid()
    modifies db`subjects, db`users, db`sessions, db`orgs, db`members
    ensures db.Valid()
    ensures Solo(db.View(), outcome) == Written(WriteEffect(old(db.View()), db.clock, op, tok.subject))
  {
    var reply;
    match op {
      case DeleteOrg(org) => reply := db.DeleteOrganization(org, tok.subject);
      case AddMember(org, target, role) => reply := db.AddOrganizationMember(org, target, tok.subject, role);
      case UpdateRole(org, target, role) => reply := db.UpdateOrganizationMemberRole(org, target, tok.subject, role);
      case RemoveMember(org, target) => reply := db.RemoveOrganizationMember(org, target, tok.subject);
    }
    return if reply.Failed? then Rejected else Accepted;
  }

  /** What an accepted operation leaves in the tables. */
  ghost predicate TakesEffect(t: Tables, t': Tables, now: Time, op: OrgOp)
  {
    match op
    case AddMember(org, u, role) =>
      && MemberKey(u, org) !in t.members
      && t' == t.(members := t.members[MemberKey(u, org) := Member(role, now)])
    case UpdateRole(org, u, role) =>
      && MemberKey(u, org) in t.members
      && t' == t.(members := t.members[MemberKey(u, org) := Member(role, t.members[MemberKey(u, org)].createdAt)])
    case RemoveMember(org, u) =>
      && MemberKey(u, org) in t.members
      && t' == t.(members := map k | k in t.members && k != MemberKey(u, org) :: t.members[k])
    case DeleteOrg(org) =>
      org !in t'.orgs && org !in t'.subjects && forall k | k in t'.members :: k.org != org
  }

  lemma HandledTakesEffect(t: Tables, now: Time, tok: AccessToken, op: OrgOp)
    requires MemberSchema(t.members, t.users, t.orgs)
    ensures var solo := Handled(t, now, tok, op);
            if solo.outcome == Accepted then TakesEffect(t, solo.t, now, op) else solo.t == t
  {
    match op
    case RemoveMember(org, u) =>
      assert t.members - {MemberKey(u, org)} == map k | k in t.members && k != MemberKey(u, org) :: t.members[k];
    case _ =>
  }

  /** AddMember, UpdateMemberRole, RemoveMember and DeleteOrganization: decide, then write. */
  method Handle(db: PsqlDB, tok: AccessToken, op: OrgOp) returns (outcome: Outcome)
    requires db.Valid()
    modifies db`subjects, db`users, db`sessions, db`orgs, db`members
    ensures db.Valid()
    ensures Solo(db.View(), outcome) == Handled(old(db.View()), db.clock, tok, op)
    ensures outcome == Accepted ==> TakesEffect(old(db.View()), db.View(), db.clock, op)
    ensures outcome != Accepted ==> db.View() == old(db.View())
  {
    ghost var t := db.View();
    outcome := Decide(db, tok, op);
    assert db.View() == t;
    HandledTakesEffect(t, db.clock, tok, op);
    if outcome == Accepted {
      outcome := Commit(db, tok, op);
    }
  }

  // ---- The interleaved programs run alone ----

  /** A request's program run to its end with nothing in between. */
  ghost function RunAlone(t: Tables, now: Time, cfg: Config, r: Request, d: Draw): Solo
    decreases r.Remaining()
  {
    var e := Apply(t, now, NextCall(r, d, cfg));
    match Continue(r, e.reply, now, d, cfg)
    case Finished(outcome) => Solo(e.t, outcome)
    case Pending(next) => RunAlone(e.t, now, cfg, next, d)
  }

  /** One step of a program run alone. */
  lemma RunsOn(t: Tables, now: Time, cfg: Config, r: Request, d: Draw, reply: Reply, p: Progress)
    requires Apply(t, now, NextCall(r, d, cfg)) == Effect(t, reply) && Continue(r, reply, now, d, cfg) == p
    ensures RunAlone(t, now, cfg, r, d) ==
            if p.Finished? then Solo(t, p.outcome) else RunAlone(t, now, cfg, p.next, d)
  {}

  lemma NobodyListedWithoutMembership(t: Tables, org: Id, caller: Id)
    ensures var n := OwnerCount(ListOrganizationMembers(t, org, caller).reply.roles);
            n == if ActiveMember(t, org, caller) then OwnerCount(RolesOf(t, org)) else 0
  {
    if !ActiveMember(t, org, caller) {
      assert OwnersAmong(ListOrganizationMembers(t, org, caller).reply.roles) == {};
    }
  }

  /** The program of a request, run alone, does what its handler does. */
  lemma ProgramIsHandler(t: Tables, now: Time, cfg: Config, tok: AccessToken, op: OrgOp, d: Draw)
    requires MemberSchema(t.members, t.users, t.orgs)
    ensures RunAlone(t, now, cfg, Request.Gate(tok, OnOrg(op)), d) == Handled(t, now, tok, op)
  {
    GateIsLiveSession(t, now, tok);
    if Admitted(t, now, tok, op) {
      AdmittedProgram(t, now, cfg, tok, op, d);
    }
  }

  lemma AdmittedProgram(t: Tables, now: Time, cfg: Config, tok: AccessToken, op: OrgOp, d: Draw)
    requires Admitted(t, now, tok, op)
    requires MemberSchema(t.members, t.users, t.orgs)
    ensures RunAlone(t, now, cfg, Ready(tok, OnOrg(op)), d) == Handled(t, now, tok, op)
  {
    WritingProgram(t, now, cfg, tok, op, d);
    var reply := MemberReply(RoleIn(t, op.org, tok.subject));
    if op.DeleteOrg? {
      RunsOn(t, now, cfg, Ready(tok, OnOrg(op)), d, reply, Pending(Writing(tok, op)));
    } else {
      RunsOn(t, now, cfg, Ready(tok, OnOrg(op)), d, reply, Pending(Authorized(tok, op)));
      AuthorizedProgram(t, now, cfg, tok, op, d);
    }
  }

  /** From authorization on: the write if the rules allow it, and nothing otherwise. */
  ghost predicate WritesIfAllowed(t: Tables, now: Time, cfg: Config, r: Request, tok: AccessToken, op: OrgOp, d: Draw)
    requires MemberKey(tok.subject, op.org) in t.members
  {
    RunAlone(t, now, cfg, r, d) ==
    if RulesAllow(t, tok, op) then RunAlone(t, now, cfg, Writing(tok, op), d) else Solo(t, Rejected)
  }

  lemma AuthorizedProgram(t: Tables, now: Time, cfg: Config, tok: AccessToken, op: OrgOp, d: Draw)
    requires ActiveMember(t, op.org, tok.subject) && !op.DeleteOrg?
    requires MemberSchema(t.members, t.users, t.orgs)
    ensures WritesIfAllowed(t, now, cfg, Authorized(tok, op), tok, op, d)
  {
    match op
    case AddMember(_, _, _) => AddProgram(t, now, cfg, tok, op, d);
    case UpdateRole(_, _, _) => UpdateProgram(t, now, cfg, tok, op, d);
    case RemoveMember(_, _) => RemoveProgram(t, now, cfg, tok, op, d);
  }

  lemma AddProgram(t: Tables, now: Time, cfg: Config, tok: AccessToken, op: OrgOp, d: Draw)
    requires op.AddMember? && ActiveMember(t, op.org, tok.subject)
    ensures WritesIfAllowed(t, now, cfg, Authorized(tok, op), tok, op, d)
  {
    var role := RoleIn(t, op.org, tok.subject);
    var p := if RulesAllow(t, tok, op) then Pending(Writing(tok, op)) else Finished(Rejected);
    RunsOn(t, now, cfg, Authorized(tok, op), d, MemberReply(role), p);
  }

  lemma UpdateProgram(t: Tables, now: Time, cfg: Config, tok: AccessToken, op: OrgOp, d: Draw)
    requires op.UpdateRole? && ActiveMember(t, op.org, tok.subject)
    requires MemberSchema(t.members, t.users, t.orgs)
    ensures WritesIfAllowed(t, now, cfg, Authorized(tok, op), tok, op, d)
  {
    var r := Authorized(tok, op);
    if ActiveMember(t, op.org, op.target) {
      var targetRole := RoleIn(t, op.org, op.target);
      RunsOn(t, now, cfg, r, d, MemberReply(targetRole), Pending(TargetRead(tok, op, targetRole)));
      UpdateRulesProgram(t, now, cfg, tok, op, d);
    } else {
      RunsOn(t, now, cfg, r, d, Failed(MemberNotFound), Finished(Rejected));
    }
  }

  lemma UpdateRulesProgram(t: Tables, now: Time, cfg: Config, tok: AccessToken, op: OrgOp, d: Draw)
    requires op.UpdateRole? && ActiveMember(t, op.org, tok.subject) && ActiveMember(t, op.org, op.target)
    requires IsValidRole(RoleIn(t, op.org, op.target))
    ensures WritesIfAllowed(t, now, cfg, TargetRead(tok, op, RoleIn(t, op.org, op.target)), tok, op, d)
  {
    var callerRole, targetRole := RoleIn(t, op.org, tok.subject), RoleIn(t, op.org, op.target);
    var outranked :=
      RoleRank(callerRole).None? || Rank(targetRole) > Rank(callerRole) || Rank(op.role) > Rank(callerRole);
    var p :=
      if outranked then Finished(Rejected)
      else if targetRole == Owner then Pending(Counting(tok, op))
      else Pending(Writing(tok, op));
    RunsOn(t, now, cfg, TargetRead(tok, op, targetRole), d, MemberReply(callerRole), p);
    CountingProgram(t, now, cfg, tok, op, d);
  }

  lemma RemoveProgram(t: Tables, now: Time, cfg: Config, tok: AccessToken, op: OrgOp, d: Draw)
    requires op.RemoveMember? && ActiveMember(t, op.org, tok.subject)
    ensures WritesIfAllowed(t, now, cfg, Authorized(tok, op), tok, op, d)
  {
    var r := Authorized(tok, op);
    if !ActiveMember(t, op.org, op.target) {
      RunsOn(t, now, cfg, r, d, Failed(MemberNotFound), Finished(Rejected));
    } else if RoleIn(t, op.org, op.target) != Owner {
      RunsOn(t, now, cfg, r, d, MemberReply(RoleIn(t, op.org, op.target)), Pending(Writing(tok, op)));
    } else {
      RunsOn(t, now, cfg, r, d, MemberReply(Owner), Pending(TargetRead(tok, op, Owner)));
      RemoveRulesProgram(t, now, cfg, tok, op, d);
    }
  }

  lemma RemoveRulesProgram(t: Tables, now: Time, cfg: Config, tok: AccessToken, op: OrgOp, d: Draw)
    requires op.RemoveMember? && ActiveMember(t, op.org, tok.subject) && ActiveMember(t, op.org, op.target)
    requires RoleIn(t, op.org, op.target) == Owner
    ensures WritesIfAllowed(t, now, cfg, TargetRead(tok, op, Owner), tok, op, d)
  {
    var callerRole := RoleIn(t, op.org, tok.subject);
    var p := if callerRole == Owner then Pending(Counting(tok, op)) else Finished(Rejected);
    RunsOn(t, now, cfg, TargetRead(tok, op, Owner), d, MemberReply(callerRole), p);
    CountingProgram(t, now, cfg, tok, op, d);
  }

  lemma DeletionProgram(t: Tables, now: Time, cfg: Config, tok: AccessToken, org: Id, d: Draw)
    ensures RunAlone(t, now, cfg, Writing(tok, DeleteOrg(org)), d)
         == Written(MembershipSql.DeleteOrganization(t, org, tok.subject))
  {}

  lemma AdditionProgram(t: Tables, now: Time, cfg: Config, tok: AccessToken, org: Id, target: Id, role: Role, d: Draw)
    ensures RunAlone(t, now, cfg, Writing(tok, AddMember(org, target, role)), d)
         == Written(AddOrganizationMember(t, now, org, target, tok.subject, role))
  {}

  lemma RoleChangeProgram(t: Tables, now: Time, cfg: Config, tok: AccessToken, org: Id, target: Id, role: Role, d: Draw)
    ensures RunAlone(t, now, cfg, Writing(tok, UpdateRole(org, target, role)), d)
         == Written(UpdateOrganizationMemberRole(t, org, target, tok.subject, role))
  {}

  lemma RemovalProgram(t: Tables, now: Time, cfg: Config, tok: AccessToken, org: Id, target: Id, d: Draw)
    ensures RunAlone(t, now, cfg, Writing(tok, RemoveMember(org, target)), d)
         == Written(RemoveOrganizationMember(t, org, target, tok.subject))
  {}

  lemma WritingProgram(t: Tables, now: Time, cfg: Config, tok: AccessToken, op: OrgOp, d: Draw)
    ensures RunAlone(t, now, cfg, Writing(tok, op), d) == Written(WriteEffect(t, now, op, tok.subject))
  {
    match op
    case DeleteOrg(org) => DeletionProgram(t, now, cfg, tok, org, d);
    case AddMember(org, target, role) => AdditionProgram(t, now, cfg, tok, org, target, role, d);
    case UpdateRole(org, target, role) => RoleChangeProgram(t, now, cfg, tok, org, target, role, d);
    case RemoveMember(org, target) => RemovalProgram(t, now, cfg, tok, org, target, d);
  }

  lemma CountingProgram(t: Tables, now: Time, cfg: Config, tok: AccessToken, op: OrgOp, d: Draw)
    ensures RunAlone(t, now, cfg, Counting(tok, op), d) ==
            if ActiveMember(t, op.org, tok.subject) && OwnerCount(RolesOf(t, op.org)) >= 2
            then RunAlone(t, now, cfg, Writing(tok, op), d) else Solo(t, Rejected)
  {
    var reply := ListOrganizationMembers(t, op.org, tok.subject).reply;
    NobodyListedWithoutMembership(t, op.org, tok.subject);
    RunsOn(t, now, cfg, Counting(tok, op), d, reply,
           if OwnerCount(reply.roles) <= 1 then Finished(Rejected) else Pending(Writing(tok, op)));
  }
}
