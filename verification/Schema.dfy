/** The tables of db/migrations/010-initial_auth_schema.sql and 012-organizations.sql, and the
    constraints PostgreSQL enforces on them after every statement. */
module Schema {
  import opened Outcomes
  import opened Credentials

  type Id = nat
  type Time = int

  datatype Kind = UserKind | OrganizationKind

  /** A role column or request field: the four known names, or any other text. */
  datatype Role = Owner | Admin | Editor | Viewer | OtherRole(name: string)

  datatype Reason = Rotated | ReuseDetected | Expired | LoggedOut | UserDeactivated

  datatype User = User(active: bool, username: string, email: string, phone: Option<int>, passwordHash: string)

  /** The host part of a remote address: one that PostgreSQL reads as an inet value, or another
      text, such as an IPv6 address with a zone. */
  datatype Host = Inet(text: string) | OtherHost(text: string)

  /** A User-Agent header: absent or empty, a text, or bytes that are not UTF-8. */
  datatype Agent = NoAgent | Agent(text: string) | NotUtf8

  datatype Client = Client(host: Host, agent: Agent)

  datatype Session = Session(
    subject: Id, family: Id, hash: TokenHash, client: Client, createdAt: Time, expiresAt: Time,
    revokedAt: Option<Time>, reason: Option<Reason>, replacedBy: Option<Id>)
  {
    predicate Live() { revokedAt.None? }
  }

  datatype Organization = Organization(name: string, description: Option<string>)

  datatype MemberKey = MemberKey(user: Id, org: Id)

  datatype Member = Member(role: Role, createdAt: Time)

  datatype Tables = Tables(
    subjects: map<Id, Kind>,
    users: map<Id, User>,
    sessions: map<Id, Session>,
    orgs: map<Id, Organization>,
    members: map<MemberKey, Member>)

  const EMPTY: Tables := Tables(map[], map[], map[], map[], map[])

  // ---- Column types ----

  /** A text PostgreSQL stores: it has no place for a NUL character. */
  predicate IsText(s: string)
  {
    '\0' !in s
  }

  /** A text in a VARCHAR column. */
  predicate TextFits(s: string, width: nat)
  {
    IsText(s) && |s| <= width
  }

  const AGENT_WIDTH: nat := 1024

  /** created_ip INET NOT NULL and created_user_agent VARCHAR(1024). */
  predicate ClientFits(c: Client)
  {
    c.host.Inet? && !c.agent.NotUtf8? && (c.agent.Agent? ==> TextFits(c.agent.text, AGENT_WIDTH))
  }

  // ---- auth_sessions ----

  /** uq_auth_sess_family_active: at most one unrevoked session in a family. */
  ghost predicate FamilyActiveUnique(ss: map<Id, Session>)
  {
    forall i, j | i in ss && j in ss && ss[i].Live() && ss[j].Live() && ss[i].family == ss[j].family :: i == j
  }

  /** ix_auth_sess_rf_tok_hsh. */
  ghost predicate HashUnique(ss: map<Id, Session>)
  {
    forall i, j | i in ss && j in ss && ss[i].hash == ss[j].hash :: i == j
  }

  /** fk_auth_sess_repl_by_auth_sess and ck_auth_sess_repl_not_self. */
  ghost predicate ReplacementExists(ss: map<Id, Session>)
  {
    forall i | i in ss && ss[i].replacedBy.Some? :: ss[i].replacedBy.value in ss && ss[i].replacedBy.value != i
  }

  /** ck_auth_sess_exps_aft_created and ck_auth_sess_rev_aft_created. */
  ghost predicate SessionTimes(ss: map<Id, Session>)
  {
    forall i | i in ss ::
      ss[i].createdAt < ss[i].expiresAt && (ss[i].revokedAt.Some? ==> ss[i].createdAt <= ss[i].revokedAt.value)
  }

  ghost predicate SessionClients(ss: map<Id, Session>)
  {
    forall i | i in ss :: ClientFits(ss[i].client)
  }

  ghost predicate SessionSchema(ss: map<Id, Session>)
  {
    FamilyActiveUnique(ss) && HashUnique(ss) && ReplacementExists(ss) && SessionTimes(ss) && SessionClients(ss)
  }

  /** fk_auth_sessions_subject_id_subjects. */
  ghost predicate SessionSubjects(ss: map<Id, Session>, subjects: map<Id, Kind>)
  {
    forall i | i in ss :: ss[i].subject in subjects
  }

  // ---- users ----

  /** Column types of users. */
  predicate UserFits(u: User)
  {
    && TextFits(u.username, 128) && TextFits(u.email, 128) && TextFits(u.passwordHash, 512)
    && (u.phone.Some? ==> FitsInt32(u.phone.value))
  }

  /** Two rows that uq_users_username, uq_users_email and uq_users_phone keep apart. */
  predicate Distinct(u: User, v: User)
  {
    u.username != v.username && u.email != v.email && (u.phone.Some? ==> u.phone != v.phone)
  }

  ghost predicate UserSchema(us: map<Id, User>, subjects: map<Id, Kind>)
  {
    && (forall i | i in us :: i in subjects && UserFits(us[i]))
    && (forall i, j | i in us && j in us && i != j :: Distinct(us[i], us[j]))
  }

  // ---- organizations and organization_members ----

  predicate IsValidRole(r: Role)
  {
    !r.OtherRole?
  }

  /** Column types of organizations, whose widths are unbounded. */
  predicate OrgFits(o: Organization)
  {
    IsText(o.name) && (o.description.Some? ==> IsText(o.description.value))
  }

  ghost predicate OrgSchema(orgs: map<Id, Organization>, subjects: map<Id, Kind>)
  {
    forall o | o in orgs :: o in subjects && OrgFits(orgs[o])
  }

  ghost predicate MemberSchema(ms: map<MemberKey, Member>, users: map<Id, User>, orgs: map<Id, Organization>)
  {
    forall k | k in ms :: k.user in users && k.org in orgs && IsValidRole(ms[k].role)
  }

  // ---- the whole database ----

  /** No row claims to be created after the current time: there is one monotone clock. */
  ghost predicate SessionClock(ss: map<Id, Session>, now: Time)
  {
    forall i | i in ss :: ss[i].createdAt <= now
  }

  ghost predicate MemberClock(ms: map<MemberKey, Member>, now: Time)
  {
    forall k | k in ms :: ms[k].createdAt <= now
  }

  ghost predicate Legal(t: Tables, now: Time)
  {
    && SessionSchema(t.sessions) && SessionSubjects(t.sessions, t.subjects) && SessionClock(t.sessions, now)
    && UserSchema(t.users, t.subjects)
    && OrgSchema(t.orgs, t.subjects)
    && MemberSchema(t.members, t.users, t.orgs) && MemberClock(t.members, now)
  }
}
