/** The PostgreSQL implementation of the Database interface (pkg/db/psql/psql.go): tables that
    methods change in place, statement by statement, with rollback where psql.go opens a
    transaction. `Valid` is what the schema's constraints guarantee between statements; every
    method is proved to have exactly the effect its SQL function gives. */
module Database {
  import opened Outcomes
  import opened Credentials
  import opened Schema
  import opened SessionSql
  import opened MembershipSql
  import opened SchemaLemmas

  /** The rows that an UPDATE ... WHERE revoked_at IS NULL affects. */
  function LiveAmong(ss: map<Id, Session>, ids: set<Id>): set<Id>
  {
    set i | i in ss && i in ids && ss[i].Live()
  }

  /** One condition of GetUser's WHERE clause. */
  datatype Condition = IdIs(id: Id) | UsernameIs(text: string) | EmailIs(text: string)

  predicate Meets(i: Id, u: User, c: Condition)
  {
    match c
    case IdIs(id) => i == id
    case UsernameIs(text) => u.username == text
    case EmailIs(text) => u.email == text
  }

  predicate MeetsAll(i: Id, u: User, conditions: seq<Condition>)
  {
    forall k | 0 <= k < |conditions| :: Meets(i, u, conditions[k])
  }

  function Conditions(userId: Option<Id>, username: string, email: string): seq<Condition>
  {
    (if userId.Some? then [IdIs(userId.value)] else [])
    + (if username != "" then [UsernameIs(username)] else [])
    + (if email != "" then [EmailIs(email)] else [])
  }

  lemma MeetsGivenFilters(i: Id, u: User, userId: Option<Id>, username: string, email: string)
    ensures MeetsAll(i, u, Conditions(userId, username, email)) <==>
            && (userId.Some? ==> i == userId.value)
            && (username != "" ==> u.username == username)
            && (email != "" ==> u.email == email)
  {
    var conditions := Conditions(userId, username, email);
    if userId.Some? {
      assert conditions[0] == IdIs(userId.value);
    }
    if username != "" {
      assert conditions[if userId.Some? then 1 else 0] == UsernameIs(username);
    }
    if email != "" {
      assert conditions[|conditions| - 1] == EmailIs(email);
    }
  }

  /** The row is of an active user and meets every filter that is given. */
  predicate Selected(us: map<Id, User>, userId: Option<Id>, username: string, email: string, i: Id)
  {
    && i in us && us[i].active
    && (userId.Some? ==> i == userId.value)
    && (username != "" ==> us[i].username == username)
    && (email != "" ==> us[i].email == email)
  }

  class PsqlDB {
    var subjects: map<Id, Kind>
    var users: map<Id, User>
    var sessions: map<Id, Session>
    var orgs: map<Id, Organization>
    var members: map<MemberKey, Member>
    var clock: Time

    function View(): Tables
      reads this
    {
      Tables(subjects, users, sessions, orgs, members)
    }

    ghost predicate Valid()
      reads this
    {
      Legal(View(), clock)
    }

    constructor (now: Time)
      ensures Valid() && View() == EMPTY && clock == now
    {
      subjects, users, sessions, orgs, members := map[], map[], map[], map[], map[];
      clock := now;
    }

    /** Time passes. */
    method Tick(to: Time)
      requires Valid() && clock <= to
      modifies this`clock
      ensures Valid() && clock == to
    {
      clock := to;
    }

    // ---- Statements ----

    method Rollback(saved: Tables)
      requires Legal(saved, clock)
      modifies this`subjects, this`users, this`sessions, this`orgs, this`members
      ensures Valid() && View() == saved
    {
      subjects, users, sessions := saved.subjects, saved.users, saved.sessions;
      orgs, members := saved.orgs, saved.members;
    }

    method ExecInsertSubject(id: Id, kind: Kind) returns (ok: bool)
      requires Valid()
      modifies this`subjects
      ensures Valid()
      ensures ok <==> id !in old(subjects)
      ensures subjects == if ok then old(subjects)[id := kind] else old(subjects)
    {
      ok := id !in subjects;
      if ok {
        subjects := subjects[id := kind];
      }
    }

    method ExecRevokeLive(ids: set<Id>, reason: Reason) returns (rows: nat)
      requires Valid()
      modifies this`sessions
      ensures Valid()
      ensures sessions == RevokeLive(old(sessions), ids, clock, reason)
      ensures rows == |LiveAmong(old(sessions), ids)|
    {
      RevokeLiveKeepsSchema(sessions, ids, clock, reason);
      rows := |LiveAmong(sessions, ids)|;
      sessions := RevokeLive(sessions, ids, clock, reason);
    }

    method ExecInsertSession(id: Id, row: Session) returns (r: Reply)
      requires Valid()
      requires row.Live() && row.replacedBy.None? && row.createdAt == clock
      modifies this`sessions
      ensures Valid()
      ensures r == if !Insertable(old(sessions), id, row) then Failed(QueryError)
                   else if row.subject !in subjects then Failed(UserNotFound)
                   else SessionReply(id, row)
      ensures sessions == if r.SessionReply? then old(sessions)[id := row] else old(sessions)
    {
      if id in sessions || !ClientFits(row.client) || row.expiresAt <= row.createdAt {
        return Failed(QueryError);
      }
      if exists i :: i in sessions && sessions[i].hash == row.hash {
        return Failed(QueryError);
      }
      if exists i :: i in sessions && sessions[i].Live() && sessions[i].family == row.family {
        return Failed(QueryError);
      }
      if row.subject !in subjects {
        return Failed(UserNotFound);
      }
      InsertKeepsSchema(sessions, id, row, clock);
      sessions := sessions[id := row];
      return SessionReply(id, row);
    }

    method ExecSetReplacedBy(id: Id, next: Id) returns (ok: bool)
      requires Valid() && id in sessions
      modifies this`sessions
      ensures Valid()
      ensures ok <==> next in old(sessions) && next != id
      ensures sessions ==
              if ok then old(sessions)[id := old(sessions)[id].(replacedBy := Some(next))] else old(sessions)
    {
      ok := next in sessions && next != id;
      if ok {
        BackfillKeepsSchema(sessions, id, next);
        sessions := sessions[id := sessions[id].(replacedBy := Some(next))];
      }
    }

    method ExecInsertUser(id: Id, row: User) returns (r: Reply)
      requires Valid() && id in subjects && id !in users
      modifies this`users
      ensures Valid()
      ensures r == if !UserFits(row) then Failed(QueryError)
                   else if exists j :: j in old(users) && !Distinct(row, old(users)[j]) then Failed(UserAlreadyExists)
                   else UserReply(id, row)
      ensures users == if r.UserReply? then old(users)[id := row] else old(users)
    {
      if !UserFits(row) {
        return Failed(QueryError);
      }
      if exists j :: j in users && !Distinct(row, users[j]) {
        return Failed(UserAlreadyExists);
      }
      UserWriteKeepsSchema(View(), id, row, clock);
      users := users[id := row];
      return UserReply(id, row);
    }

    method ExecSetInactive(id: Id)
      requires Valid() && id in users
      modifies this`users
      ensures Valid() && users == old(users)[id := old(users)[id].(active := false)]
    {
      UserWriteKeepsSchema(View(), id, users[id].(active := false), clock);
      users := users[id := users[id].(active := false)];
    }

    method ExecWriteMember(key: MemberKey, row: Member)
      requires Valid() && key.user in users && key.org in orgs && IsValidRole(row.role) && row.createdAt <= clock
      modifies this`members
      ensures Valid() && members == old(members)[key := row]
    {
      MemberWriteKeepsSchema(View(), key, row, clock);
      members := members[key := row];
    }

    // ---- Users ----

    method CreateUser(id: Id, active: bool, username: string, email: string, passwordHash: string, phone: int)
      returns (r: Reply)
      requires Valid()
      modifies this`subjects, this`users, this`sessions, this`orgs, this`members
      ensures Valid()
      ensures Effect(View(), r) == SessionSql.CreateUser(old(View()), id, active, username, email, passwordHash, phone)
    {
      var saved := View();
      var ok := ExecInsertSubject(id, UserKind);
      if !ok {
        return Failed(QueryError);
      }
      if !FitsInt32(phone) {
        Rollback(saved);
        return Failed(QueryError);
      }
      r := ExecInsertUser(id, User(active, username, email, PhoneColumn(phone), passwordHash));
      if r.Failed? {
        Rollback(saved);
      }
    }

    /** GetUser: the WHERE clause holds the filters that are given, and the active flag. As no two
        users share a name or an address, it selects one row at most. */
    method GetUser(userId: Option<Id>, username: string, email: string) returns (r: Reply)
      requires Valid()
      ensures
        if (userId.None? && username == "" && email == "") || !IsText(username) || !IsText(email) then
          r == Failed(QueryError)
        else if r.UserReply? then
          && Selected(users, userId, username, email, r.userId) && r.user == users[r.userId]
          && forall i | Selected(users, userId, username, email, i) :: i == r.userId
        else r == Failed(UserNotFound) && forall i :: !Selected(users, userId, username, email, i)
      ensures userId.None? ==> Effect(View(), r) == GetUserByLogin(View(), username, email)
      ensures userId.Some? && username == "" && email == "" ==> Effect(View(), r) == GetUserById(View(), userId.value)
    {
      var conditions: seq<Condition> := [];
      if userId.Some? {
        conditions := conditions + [IdIs(userId.value)];
      }
      if username != "" {
        conditions := conditions + [UsernameIs(username)];
      }
      if email != "" {
        conditions := conditions + [EmailIs(email)];
      }
      assert conditions == Conditions(userId, username, email);
      if conditions == [] || !IsText(username) || !IsText(email) {
        return Failed(QueryError);
      }
      forall i | i in users
        ensures users[i].active && MeetsAll(i, users[i], conditions) <==> Selected(users, userId, username, email, i)
      {
        MeetsGivenFilters(i, users[i], userId, username, email);
      }
      if exists i :: i in users && users[i].active && MeetsAll(i, users[i], conditions) {
        var i :| i in users && users[i].active && MeetsAll(i, users[i], conditions);
        return UserReply(i, users[i]);
      }
      return Failed(UserNotFound);
    }

    method UpdateUser(id: Id, username: string, email: string, phoneText: string) returns (r: Reply)
      requires Valid()
      modifies this`users
      ensures Valid()
      ensures Effect(View(), r) == SessionSql.UpdateUser(old(View()), id, username, email, phoneText)
    {
      var parsed := ParsePhoneText(phoneText);
      if parsed.None? || !FitsInt32(parsed.value) {
        return Failed(QueryError);
      }
      if id !in users || !users[id].active {
        return Failed(UserNotFound);
      }
      var row := users[id].(username := username, email := email, phone := PhoneColumn(parsed.value));
      if !UserFits(row) {
        return Failed(QueryError);
      }
      if exists j :: j in users && j != id && !Distinct(row, users[j]) {
        return Failed(UserAlreadyExists);
      }
      UserWriteKeepsSchema(View(), id, row, clock);
      users := users[id := row];
      return UserReply(id, row);
    }

    method DeactivateUser(id: Id) returns (r: Reply)
      requires Valid()
      modifies this`users, this`sessions
      ensures Valid()
      ensures r.Done? <==> id in old(users) && old(users)[id].active
      ensures r.Done? ==>
                && users == old(users)[id := old(users)[id].(active := false)]
                && OnlySubjectRevoked(old(sessions), sessions, id, clock, UserDeactivated)
      ensures !r.Done? ==> unchanged(this)
      ensures Effect(View(), r) == SessionSql.DeactivateUser(old(View()), clock, id)
    {
      if id !in users || !users[id].active {
        return Failed(UserNotFound);
      }
      ExecSetInactive(id);
      var _ := ExecRevokeLive(SubjectSessions(sessions, id), UserDeactivated);
      return Done;
    }

    // ---- Sessions ----

    method CreateAuthSession(issue: Issue, subject: Id, family: Id) returns (r: Reply)
      requires Valid()
      modifies this`sessions
      ensures Valid()
      ensures Effect(View(), r) == SessionSql.CreateAuthSession(old(View()), clock, issue, subject, family)
    {
      r := ExecInsertSession(issue.id, NewSession(subject, family, issue, clock));
    }

    method GetAuthSession(id: Id) returns (r: Reply)
      requires Valid()
      ensures Effect(View(), r) == SessionSql.GetAuthSession(View(), id)
    {
      if id in sessions && sessions[id].subject in subjects {
        return SessionReply(id, sessions[id]);
      }
      return Failed(TokenNotFound);
    }

    /** The row with a token hash, joined with its subject; the unique index allows only one. */
    method SelectByHash(hash: TokenHash) returns (id: Option<Id>)
      requires Valid()
      ensures id == if HashKnown(sessions, hash) then Some(SessionOfHash(sessions, hash)) else None
    {
      if exists i :: i in sessions && sessions[i].hash == hash && sessions[i].subject in subjects {
        var i :| i in sessions && sessions[i].hash == hash && sessions[i].subject in subjects;
        return Some(i);
      }
      return None;
    }

    /** The writing half of the refresh transaction. */
    method ExecRotation(saved: Tables, oldId: Id, issue: Issue) returns (r: Reply)
      requires Valid() && saved == View()
      requires oldId in sessions && sessions[oldId].Live()
      modifies this`subjects, this`users, this`sessions, this`orgs, this`members
      ensures Valid()
      ensures r == if !Renewable(saved.sessions, clock, issue) then Failed(QueryError)
                   else SessionReply(issue.id, Successor(saved.sessions[oldId], issue, clock))
      ensures View() == if r.Failed? then saved
                        else saved.(sessions := Rotate(saved.sessions, oldId, issue, clock))
    {
      var row := Successor(sessions[oldId], issue, clock);
      var rows := ExecRevokeLive({oldId}, Reason.Rotated);
      assert rows == 1 by {
        assert LiveAmong(saved.sessions, {oldId}) == {oldId};
      }
      InsertableAfterRevoke(saved.sessions, oldId, issue, clock);
      r := ExecInsertSession(issue.id, row);
      if r.Failed? {
        Rollback(saved);
        return;
      }
      RotationIsItsStatements(saved.sessions, oldId, issue, clock);
      var filled := ExecSetReplacedBy(oldId, issue.id);
      if !filled {
        assert false;
      }
    }

    /** The refresh transaction. Its rows-affected check never fails, and the statements that
        follow it only fail when the new row cannot be inserted. */
    method RefreshAuthSession(oldHash: TokenHash, issue: Issue) returns (r: Reply)
      requires Valid()
      modifies this`subjects, this`users, this`sessions, this`orgs, this`members
      ensures Valid()
      ensures forall i | i in old(sessions) && old(sessions)[i].hash == oldHash ::
                && (r == Failed(TokenReuseDetected) <==> old(sessions)[i].revokedAt.Some?)
                && (r == Failed(TokenExpired) <==>
                      old(sessions)[i].revokedAt.None? && old(sessions)[i].expiresAt <= clock)
      ensures Effect(View(), r) == SessionSql.RefreshAuthSession(old(View()), clock, oldHash, issue)
    {
      var saved := View();
      var found := SelectByHash(oldHash);
      if found.None? {
        return Failed(TokenNotFound);
      }
      var oldId := found.value;
      var oldSession := sessions[oldId];
      ghost var kase := RefreshCaseOf(saved, clock, oldHash, issue);

      if oldSession.revokedAt.Some? {
        var _ := ExecRevokeLive(FamilySessions(sessions, oldSession.family), ReuseDetected);
        assert kase == Reused(oldId);
        return Failed(TokenReuseDetected);
      }
      if oldSession.expiresAt <= clock {
        var _ := ExecRevokeLive({oldId}, Expired);
        assert kase == Stale(oldId);
        return Failed(TokenExpired);
      }
      var subject := oldSession.subject;
      if subject !in users || subject !in subjects || subjects[subject] != UserKind || !users[subject].active {
        assert kase == OwnerInactive;
        return Failed(UserNotFound);
      }

      r := ExecRotation(saved, oldId, issue);
    }

    method RevokeAuthSession(id: Id, subject: Id, reason: Reason, replacedBy: Option<Id>) returns (r: Reply)
      requires Valid()
      modifies this`sessions
      ensures Valid()
      ensures Effect(View(), r) == SessionSql.RevokeAuthSession(old(View()), clock, id, subject, reason, replacedBy)
    {
      if id !in sessions || sessions[id].subject != subject {
        return Failed(TokenNotFound);
      }
      var row := sessions[id];
      var next := Coalesce(row.replacedBy, replacedBy);
      if next.Some? && (next.value !in sessions || next.value == id) {
        return Failed(QueryError);
      }
      var row' := row.(revokedAt := Coalesce(row.revokedAt, Some(clock)),
                       reason := Coalesce(row.reason, Some(reason)),
                       replacedBy := next);
      CoalesceKeepsSchema(sessions, id, row', clock);
      sessions := sessions[id := row'];
      return Done;
    }

    method RevokeAllAuthSessions(subject: Id) returns (r: Reply)
      requires Valid()
      modifies this`sessions
      ensures Valid()
      ensures r.Done? && OnlySubjectRevoked(old(sessions), sessions, subject, clock, LoggedOut)
      ensures Effect(View(), r) == SessionSql.RevokeAllAuthSessions(old(View()), clock, subject)
    {
      var _ := ExecRevokeLive(SubjectSessions(sessions, subject), LoggedOut);
      return Done;
    }

    method Newest(ids: set<Id>) returns (newest: Id)
      requires ids != {} && ids <= sessions.Keys
      ensures newest in ids && forall i | i in ids :: sessions[i].createdAt <= sessions[newest].createdAt
    {
      NewestExists(sessions, ids);
      newest :| newest in ids && forall i | i in ids :: sessions[i].createdAt <= sessions[newest].createdAt;
    }

    /** ORDER BY created_at DESC: rows are appended newest first until none is left. */
    method ListAuthSessions(subject: Id) returns (rows: seq<Id>)
      ensures forall id :: id in rows <==>
        && id in sessions && sessions[id].subject == subject
        && sessions[id].revokedAt.None? && clock < sessions[id].expiresAt
      ensures forall i, j | 0 <= i < j < |rows| ::
        rows[i] != rows[j] && sessions[rows[i]].createdAt >= sessions[rows[j]].createdAt
    {
      rows := [];
      var left := ListedSessions(View(), clock, subject);
      while left != {}
        invariant left <= ListedSessions(View(), clock, subject)
        invariant forall i | 0 <= i < |rows| :: rows[i] in ListedSessions(View(), clock, subject) - left
        invariant forall id | id in ListedSessions(View(), clock, subject) - left :: id in rows
        invariant forall i, id | 0 <= i < |rows| && id in left :: sessions[rows[i]].createdAt >= sessions[id].createdAt
        invariant forall i, j | 0 <= i < j < |rows| ::
          rows[i] != rows[j] && sessions[rows[i]].createdAt >= sessions[rows[j]].createdAt
        decreases left
      {
        var next := Newest(left);
        rows := rows + [next];
        left := left - {next};
      }
    }

    // ---- Organizations ----

    method CreateOrganization(org: Id, profile: Organization, owner: Id) returns (r: Reply)
      requires Valid()
      modifies this`subjects, this`users, this`sessions, this`orgs, this`members
      ensures Valid()
      ensures Effect(View(), r) == MembershipSql.CreateOrganization(old(View()), clock, org, profile, owner)
    {
      if owner !in users || !users[owner].active {
        return Failed(UserNotFound);
      }
      var saved := View();
      var ok := ExecInsertSubject(org, OrganizationKind);
      if !ok {
        return Failed(QueryError);
      }
      if !OrgFits(profile) {
        Rollback(saved);
        return Failed(QueryError);
      }
      orgs := orgs[org := profile];
      ExecWriteMember(MemberKey(owner, org), Member(Owner, clock));
      return Done;
    }

    method DeleteOrganization(org: Id, caller: Id) returns (r: Reply)
      requires Valid()
      modifies this`subjects, this`users, this`sessions, this`orgs, this`members
      ensures Valid()
      ensures Effect(View(), r) == MembershipSql.DeleteOrganization(old(View()), org, caller)
    {
      if org !in subjects || subjects[org] != OrganizationKind {
        return Failed(OrganizationNotFound);
      }
      if MemberKey(caller, org) !in members || caller !in users || !users[caller].active {
        return Failed(OrganizationNotFound);
      }
      DeleteSubjectKeepsSchema(View(), org, clock);
      Rollback(DeleteSubject(View(), org));
      return Done;
    }

    method Oldest(keys: set<MemberKey>) returns (oldest: MemberKey)
      requires keys != {} && keys <= members.Keys
      ensures oldest in keys && forall k | k in keys :: members[oldest].createdAt <= members[k].createdAt
    {
      OldestExists(members, keys);
      oldest :| oldest in keys && forall k | k in keys :: members[oldest].createdAt <= members[k].createdAt;
    }

    /** How many rows the join with `caller` and `users` yields for one membership row: every
        membership row is tried as the caller's, and the primary key lets at most one match. */
    method JoinedCallers(m: MemberKey, caller: Id) returns (n: nat)
      ensures n == if ActiveMember(View(), m.org, caller) then 1 else 0
    {
      n := 0;
      var candidates := members.Keys;
      while candidates != {}
        invariant candidates <= members.Keys
        invariant n == if MemberKey(caller, m.org) in members.Keys - candidates && ActiveMember(View(), m.org, caller)
                       then 1 else 0
        decreases candidates
      {
        var c :| c in candidates;
        if c.org == m.org && c.user == caller && c.user in users && users[c.user].active {
          n := n + 1;
        }
        candidates := candidates - {c};
      }
    }

    /** ORDER BY created_at over an organization's membership rows. */
    method OldestFirst(org: Id) returns (rows: seq<MemberKey>)
      ensures forall k :: k in rows <==> k in members && k.org == org
      ensures forall i, j | 0 <= i < j < |rows| ::
        rows[i] != rows[j] && members[rows[i]].createdAt <= members[rows[j]].createdAt
    {
      rows := [];
      ghost var selected := set k | k in members && k.org == org;
      var left := set k | k in members && k.org == org;
      while left != {}
        invariant left <= selected
        invariant forall i | 0 <= i < |rows| :: rows[i] in selected - left
        invariant forall k | k in selected - left :: k in rows
        invariant forall i, k | 0 <= i < |rows| && k in left :: members[rows[i]].createdAt <= members[k].createdAt
        invariant forall i, j | 0 <= i < j < |rows| ::
          rows[i] != rows[j] && members[rows[i]].createdAt <= members[rows[j]].createdAt
        decreases left
      {
        var m := Oldest(left);
        rows := rows + [m];
        left := left - {m};
      }
    }

    /** The self-join of organization_members: a row of the organization is appended once for
        every matching caller row, that is, once or not at all. */
    method ListOrganizationMembers(org: Id, caller: Id) returns (rows: seq<MemberKey>)
      ensures forall k :: k in rows <==> k in members && k.org == org && ActiveMember(View(), org, caller)
      ensures forall i, j | 0 <= i < j < |rows| ::
        rows[i] != rows[j] && members[rows[i]].createdAt <= members[rows[j]].createdAt
    {
      var ordered := OldestFirst(org);
      rows := [];
      for i := 0 to |ordered|
        invariant rows == if ActiveMember(View(), org, caller) then ordered[..i] else []
      {
        assert ordered[i] in ordered;
        var n := JoinedCallers(ordered[i], caller);
        var joined := seq(n, _ => ordered[i]);
        assert joined == if ActiveMember(View(), org, caller) then [ordered[i]] else [];
        rows := rows + joined;
      }
      assert ordered[..|ordered|] == ordered;
    }

    method AddOrganizationMember(org: Id, user: Id, caller: Id, role: Role) returns (r: Reply)
      requires Valid()
      modifies this`members
      ensures Valid()
      ensures Effect(View(), r) == MembershipSql.AddOrganizationMember(old(View()), clock, org, user, caller, role)
    {
      var selected :=
        && user in users && users[user].active
        && MemberKey(caller, org) in members && caller in users && users[caller].active;
      if !selected {
        return Failed(UserNotFound);
      }
      if !IsValidRole(role) {
        return Failed(QueryError);
      }
      if MemberKey(user, org) in members {
        return Failed(MemberAlreadyExists);
      }
      ExecWriteMember(MemberKey(user, org), Member(role, clock));
      return MemberReply(role);
    }

    /** The target's row is joined with the caller's: not found unless both are active members. */
    method GetOrganizationMember(org: Id, user: Id, caller: Id) returns (r: Reply)
      ensures Effect(View(), r) == MembershipSql.GetOrganizationMember(View(), org, user, caller)
    {
      var m := MemberKey(user, org);
      var rows := [];
      if m in members && user in users && users[user].active {
        var n := JoinedCallers(m, caller);
        rows := seq(n, _ => m);
      }
      if rows == [] {
        return Failed(MemberNotFound);
      }
      return MemberReply(members[rows[0]].role);
    }

    method UpdateOrganizationMemberRole(org: Id, user: Id, caller: Id, role: Role) returns (r: Reply)
      requires Valid()
      modifies this`members
      ensures Valid()
      ensures Effect(View(), r) == MembershipSql.UpdateOrganizationMemberRole(old(View()), org, user, caller, role)
    {
      var m, c := MemberKey(user, org), MemberKey(caller, org);
      if m !in members || c !in members || !users[caller].active {
        return Failed(MemberNotFound);
      }
      if !IsValidRole(role) {
        return Failed(QueryError);
      }
      ExecWriteMember(m, members[m].(role := role));
      return MemberReply(role);
    }

    method RemoveOrganizationMember(org: Id, user: Id, caller: Id) returns (r: Reply)
      requires Valid()
      modifies this`members
      ensures Valid()
      ensures r.Done? <==>
                && MemberKey(user, org) in old(members) && MemberKey(caller, org) in old(members)
                && caller in users && users[caller].active
      ensures members == if r.Done? then map k | k in old(members) && k != MemberKey(user, org) :: old(members)[k]
                         else old(members)
      ensures Effect(View(), r) == MembershipSql.RemoveOrganizationMember(old(View()), org, user, caller)
    {
      var m, c := MemberKey(user, org), MemberKey(caller, org);
      if m !in members || c !in members || !users[caller].active {
        return Failed(MemberNotFound);
      }
      members := members - {m};
      assert members == map k | k in old(members) && k != m :: old(members)[k];
      return Done;
    }
  }

  lemma {:induction false} NewestExists(ss: map<Id, Session>, ids: set<Id>)
    requires ids != {} && ids <= ss.Keys
    ensures exists m :: m in ids && forall i | i in ids :: ss[i].createdAt <= ss[m].createdAt
  {
    var x :| x in ids;
    if ids != {x} {
      NewestExists(ss, ids - {x});
      var m :| m in ids - {x} && forall i | i in ids - {x} :: ss[i].createdAt <= ss[m].createdAt;
      var best := if ss[m].createdAt <= ss[x].createdAt then x else m;
      assert forall i | i in ids :: i == x || i in ids - {x};
      assert best in ids && forall i | i in ids :: ss[i].createdAt <= ss[best].createdAt;
    }
  }

  lemma {:induction false} OldestExists(ms: map<MemberKey, Member>, keys: set<MemberKey>)
    requires keys != {} && keys <= ms.Keys
    ensures exists m :: m in keys && forall k | k in keys :: ms[m].createdAt <= ms[k].createdAt
  {
    var x :| x in keys;
    if keys != {x} {
      OldestExists(ms, keys - {x});
      var m :| m in keys - {x} && forall k | k in keys - {x} :: ms[m].createdAt <= ms[k].createdAt;
      var best := if ms[x].createdAt <= ms[m].createdAt then x else m;
      assert forall k | k in keys :: k == x || k in keys - {x};
      assert best in keys && forall k | k in keys :: ms[best].createdAt <= ms[k].createdAt;
    }
  }
}
