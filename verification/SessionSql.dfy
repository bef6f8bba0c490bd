/** What the SQL of pkg/db/psql/psql.go does to users and sessions, one function for each
    Database method: the tables and the reply after one atomic call. */
module SessionSql {
  import opened Outcomes
  import opened Credentials
  import opened Schema

  /** The errors that handlers tell apart, and any other error of a query. */
  datatype DbError =
    | TokenNotFound | TokenExpired | TokenReuseDetected
    | UserNotFound | UserAlreadyExists
    | OrganizationNotFound | MemberNotFound | MemberAlreadyExists
    | QueryError

  datatype Reply =
    | Done
    | UserReply(userId: Id, user: User)
    | SessionReply(sessionId: Id, session: Session)
    | MemberReply(role: Role)
    | MembersReply(roles: map<Id, Role>)
    | Failed(error: DbError)

  datatype Effect = Effect(t: Tables, reply: Reply)

  // ---- users ----

  predicate ActiveUser(t: Tables, u: Id)
  {
    u in t.users && t.users[u].active
  }

  ghost function CreateUser(t: Tables, id: Id, active: bool,
                            username: string, email: string, passwordHash: string, phone: int): Effect
  {
    var row := User(active, username, email, PhoneColumn(phone), passwordHash);
    if id in t.subjects || !FitsInt32(phone) || !UserFits(row) then Effect(t, Failed(QueryError))
    else if exists j | j in t.users :: !Distinct(row, t.users[j]) then Effect(t, Failed(UserAlreadyExists))
    else Effect(t.(subjects := t.subjects[id := UserKind], users := t.users[id := row]), UserReply(id, row))
  }

  predicate LoginMatches(u: User, username: string, email: string)
  {
    u.active && (username == "" || u.username == username) && (email == "" || u.email == email)
  }

  /** GetUser with a username or an email filter, as login calls it. */
  ghost function GetUserByLogin(t: Tables, username: string, email: string): Effect
  {
    if (username == "" && email == "") || !IsText(username) || !IsText(email) then Effect(t, Failed(QueryError))
    else if !exists i :: i in t.users && LoginMatches(t.users[i], username, email) then Effect(t, Failed(UserNotFound))
    else
      var i :| i in t.users && LoginMatches(t.users[i], username, email);
      Effect(t, UserReply(i, t.users[i]))
  }

  function GetUserById(t: Tables, id: Id): Effect
  {
    Effect(t, if ActiveUser(t, id) then UserReply(id, t.users[id]) else Failed(UserNotFound))
  }

  ghost function UpdateUser(t: Tables, id: Id, username: string, email: string, phoneText: string): Effect
  {
    var phone := ParsePhoneText(phoneText);
    if phone.None? || !FitsInt32(phone.value) then Effect(t, Failed(QueryError))
    else if !ActiveUser(t, id) then Effect(t, Failed(UserNotFound))
    else
      var row := t.users[id].(username := username, email := email, phone := PhoneColumn(phone.value));
      if !UserFits(row) then Effect(t, Failed(QueryError))
      else if exists j | j in t.users && j != id :: !Distinct(row, t.users[j]) then Effect(t, Failed(UserAlreadyExists))
      else Effect(t.(users := t.users[id := row]), UserReply(id, row))
  }

  function DeactivateUser(t: Tables, now: Time, id: Id): Effect
  {
    if !ActiveUser(t, id) then Effect(t, Failed(UserNotFound))
    else
      Effect(
        t.(users := t.users[id := t.users[id].(active := false)],
           sessions := RevokeLive(t.sessions, SubjectSessions(t.sessions, id), now, UserDeactivated)),
        Done)
  }

  // ---- auth_sessions ----

  function FamilySessions(ss: map<Id, Session>, family: Id): set<Id>
  {
    set i | i in ss && ss[i].family == family
  }

  function SubjectSessions(ss: map<Id, Session>, subject: Id): set<Id>
  {
    set i | i in ss && ss[i].subject == subject
  }

  /** Of the session table exactly the unrevoked rows of one subject change, to revoked at this
      time for this reason. */
  ghost predicate OnlySubjectRevoked(a: map<Id, Session>, b: map<Id, Session>, subject: Id, now: Time, reason: Reason)
  {
    && b.Keys == a.Keys
    && forall i | i in a ::
         b[i] ==
         if a[i].subject == subject && a[i].revokedAt.None?
         then a[i].(revokedAt := Some(now), reason := Some(reason)) else a[i]
  }

  function Revoke(s: Session, now: Time, reason: Reason): Session
  {
    s.(revokedAt := Some(now), reason := Some(reason))
  }

  /** UPDATE auth_sessions SET revoked_at = NOW(), revoke_reason = reason, on those of the
      given rows WHERE revoked_at IS NULL. */
  function RevokeLive(ss: map<Id, Session>, ids: set<Id>, now: Time, reason: Reason): map<Id, Session>
  {
    map i | i in ss :: if i in ids && ss[i].Live() then Revoke(ss[i], now, reason) else ss[i]
  }

  /** What a handler supplies for a session row. */
  datatype Issue = Issue(id: Id, hash: TokenHash, expiresAt: Time, client: Client)

  /** Writing a text to a VARCHAR column cuts spaces beyond its width, and only spaces. */
  function Cut(s: string, width: nat): string
  {
    if |s| > width && forall i | width <= i < |s| :: s[i] == ' ' then s[..width] else s
  }

  function StoredClient(c: Client): Client
  {
    if c.agent.Agent? then c.(agent := Agent(Cut(c.agent.text, AGENT_WIDTH))) else c
  }

  /** The client columns of an INSERT raise no error. */
  predicate Storable(c: Client)
  {
    ClientFits(StoredClient(c))
  }

  function NewSession(subject: Id, family: Id, issue: Issue, now: Time): Session
  {
    Session(subject, family, issue.hash, StoredClient(issue.client), now, issue.expiresAt, None, None, None)
  }

  /** The constraints an INSERT of an unrevoked, unreplaced session row can violate. */
  ghost predicate Insertable(ss: map<Id, Session>, id: Id, row: Session)
  {
    && id !in ss
    && ClientFits(row.client)
    && row.createdAt < row.expiresAt
    && (forall i | i in ss :: ss[i].hash != row.hash)
    && (forall i | i in ss && ss[i].Live() :: ss[i].family != row.family)
  }

  ghost function CreateAuthSession(t: Tables, now: Time, issue: Issue, subject: Id, family: Id): Effect
  {
    var row := NewSession(subject, family, issue, now);
    if !Insertable(t.sessions, issue.id, row) then Effect(t, Failed(QueryError))
    else if subject !in t.subjects then Effect(t, Failed(UserNotFound))
    else Effect(t.(sessions := t.sessions[issue.id := row]), SessionReply(issue.id, row))
  }

  function GetAuthSession(t: Tables, id: Id): Effect
  {
    Effect(t, if id in t.sessions then SessionReply(id, t.sessions[id]) else Failed(TokenNotFound))
  }

  ghost predicate HashKnown(ss: map<Id, Session>, hash: TokenHash)
  {
    exists i :: i in ss && ss[i].hash == hash
  }

  ghost function SessionOfHash(ss: map<Id, Session>, hash: TokenHash): (id: Id)
    requires HashKnown(ss, hash)
    ensures id in ss && ss[id].hash == hash
  {
    var i :| i in ss && ss[i].hash == hash; i
  }

  /** The user-backed subject is active (the join of users and subjects in the refresh). */
  predicate ActiveUserSubject(t: Tables, u: Id)
  {
    ActiveUser(t, u) && u in t.subjects && t.subjects[u] == UserKind
  }

  /** The successor of a rotated session can be inserted. */
  ghost predicate Renewable(ss: map<Id, Session>, now: Time, issue: Issue)
  {
    issue.id !in ss && now < issue.expiresAt && !HashKnown(ss, issue.hash) && Storable(issue.client)
  }

  /** What one refresh call does, by case on the presented hash. */
  datatype RefreshCase = Unknown | Reused(id: Id) | Stale(id: Id) | OwnerInactive | NotInsertable | Rotates(id: Id)

  ghost function RefreshCaseOf(t: Tables, now: Time, oldHash: TokenHash, issue: Issue): RefreshCase
  {
    if !HashKnown(t.sessions, oldHash) then Unknown
    else
      var id := SessionOfHash(t.sessions, oldHash);
      var row := t.sessions[id];
      if !row.Live() then Reused(id)
      else if row.expiresAt <= now then Stale(id)
      else if !ActiveUserSubject(t, row.subject) then OwnerInactive
      else if !Renewable(t.sessions, now, issue) then NotInsertable
      else Rotates(id)
  }

  /** The row that replaces a rotated session. */
  function Successor(row: Session, issue: Issue, now: Time): Session
  {
    NewSession(row.subject, row.family, issue, now)
  }

  /** The three writes of a rotation taken at once. */
  function Rotate(ss: map<Id, Session>, id: Id, issue: Issue, now: Time): map<Id, Session>
    requires id in ss
  {
    ss[id := Revoke(ss[id], now, Reason.Rotated).(replacedBy := Some(issue.id))]
      [issue.id := Successor(ss[id], issue, now)]
  }

  ghost function RefreshAuthSession(t: Tables, now: Time, oldHash: TokenHash, issue: Issue): Effect
  {
    match RefreshCaseOf(t, now, oldHash, issue)
    case Unknown => Effect(t, Failed(TokenNotFound))
    case Reused(id) =>
      var family := FamilySessions(t.sessions, t.sessions[id].family);
      Effect(t.(sessions := RevokeLive(t.sessions, family, now, ReuseDetected)),
             Failed(TokenReuseDetected))
    case Stale(id) =>
      Effect(t.(sessions := RevokeLive(t.sessions, {id}, now, Expired)), Failed(TokenExpired))
    case OwnerInactive => Effect(t, Failed(UserNotFound))
    case NotInsertable => Effect(t, Failed(QueryError))
    case Rotates(id) =>
      Effect(t.(sessions := Rotate(t.sessions, id, issue, now)),
             SessionReply(issue.id, Successor(t.sessions[id], issue, now)))
  }

  function Coalesce<T>(a: Option<T>, b: Option<T>): Option<T>
  {
    if a.Some? then a else b
  }

  function RevokeAuthSession(t: Tables, now: Time, id: Id, subject: Id, reason: Reason, replacedBy: Option<Id>): Effect
  {
    if id !in t.sessions || t.sessions[id].subject != subject then Effect(t, Failed(TokenNotFound))
    else
      var row := t.sessions[id];
      var row' := row.(revokedAt := Coalesce(row.revokedAt, Some(now)),
                       reason := Coalesce(row.reason, Some(reason)),
                       replacedBy := Coalesce(row.replacedBy, replacedBy));
      if row'.replacedBy.Some? && (row'.replacedBy.value !in t.sessions || row'.replacedBy.value == id)
      then Effect(t, Failed(QueryError))
      else Effect(t.(sessions := t.sessions[id := row']), Done)
  }

  function RevokeAllAuthSessions(t: Tables, now: Time, subject: Id): Effect
  {
    Effect(t.(sessions := RevokeLive(t.sessions, SubjectSessions(t.sessions, subject), now, LoggedOut)), Done)
  }

  /** The rows ListAuthSessions selects. */
  function ListedSessions(t: Tables, now: Time, subject: Id): set<Id>
  {
    set i | i in t.sessions && t.sessions[i].subject == subject && t.sessions[i].Live() && now < t.sessions[i].expiresAt
  }
}
