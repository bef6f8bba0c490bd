/** The session handlers of internal/transport/auth/handlers.go, as sequential code over the
    database class: login, refresh, logout and the two revocations. */
module Auth {
  import opened Outcomes
  import opened Credentials
  import opened Schema
  import opened SessionSql
  import opened Requests
  import opened SessionHistory
  import opened SessionRuns
  import opened Database
  import opened Deactivation
  import opened Handlers
  import Base64

  /** What login and refresh hand out: an access token and the refresh cookie. */
  datatype Grant = Grant(token: AccessToken, cookie: string)

  /** The grant is good: its access token names a live session of its own subject, stored under
      the hash of its cookie. */
  predicate Backs(ss: map<Id, Session>, g: Grant)
  {
    && g.token.session in ss
    && var row := ss[g.token.session];
       row.Live() && row.subject == g.token.subject && row.hash == HashRefreshToken(g.cookie)
  }

  function Verdict<T>(granted: Option<T>): Outcome
  {
    if granted.Some? then Accepted else Rejected
  }

  // ---- What the handlers do without interference ----

  /** What a login presents. */
  datatype Login = Login(username: string, email: string, password: string, client: Client)

  predicate PasswordFits(argon: KeyDerivation, password: string, stored: string)
  {
    VerifyPassword(argon, password, stored) == Ok(true)
  }

  ghost function LoggedIn(t: Tables, now: Time, cfg: Config, argon: KeyDerivation, login: Login, d: Draw): Solo
  {
    var found := GetUserByLogin(t, login.username, login.email).reply;
    if !found.UserReply? || !found.user.active || !PasswordFits(argon, login.password, found.user.passwordHash)
    then Solo(t, Rejected)
    else Written(CreateAuthSession(t, now, IssueOf(d, cfg, login.client), found.userId, d.family))
  }

  /** The user is active, has the name and address that are given, and the password fits. */
  predicate Identified(us: map<Id, User>, argon: KeyDerivation, login: Login, u: Id)
  {
    && u in us && us[u].active && (login.username != "" || login.email != "")
    && (login.username != "" ==> us[u].username == login.username)
    && (login.email != "" ==> us[u].email == login.email)
    && PasswordFits(argon, login.password, us[u].passwordHash)
  }

  ghost function Refreshed(t: Tables, now: Time, presented: TokenHash, issue: Issue): Solo
  {
    Written(RefreshAuthSession(t, now, presented, issue))
  }

  /** Only the row of the named session changes, and only if it is the caller's and live. */
  function LoggedOutOf(t: Tables, now: Time, id: Id, subject: Id): Tables
  {
    if id in t.sessions && t.sessions[id].subject == subject
    then t.(sessions := RevokeLive(t.sessions, {id}, now, LoggedOut)) else t
  }

  /** The draw's verdict is that of the password check on the row the login reads. */
  ghost predicate DrawsVerdict(t: Tables, argon: KeyDerivation, login: Login, d: Draw)
  {
    var found := GetUserByLogin(t, login.username, login.email).reply;
    found.UserReply? ==> (d.passwordMatches <==> PasswordFits(argon, login.password, found.user.passwordHash))
  }

  /** The interleaved programs of login and refresh, run alone, do what their handlers do. */
  lemma LoginProgramIsHandler(t: Tables, now: Time, cfg: Config, argon: KeyDerivation, login: Login, d: Draw)
    requires DrawsVerdict(t, argon, login, d)
    ensures RunAlone(t, now, cfg, LoginLookup(login.username, login.email, login.client), d)
         == LoggedIn(t, now, cfg, argon, login, d)
  {
    var found := GetUserByLogin(t, login.username, login.email).reply;
    if found.UserReply? && found.user.active && d.passwordMatches {
      LoginCreateProgram(t, now, cfg, found.userId, login.client, d);
    }
  }

  /** A login is accepted exactly if its user is identified and the new session can be stored; it then
      adds that one row for that user, and otherwise changes nothing. */
  lemma LoginSucceedsExactly(t: Tables, now: Time, cfg: Config, argon: KeyDerivation, login: Login, d: Draw, u: Id)
    requires UserSchema(t.users, t.subjects) && IsText(login.username) && IsText(login.email)
    ensures var solo, issue := LoggedIn(t, now, cfg, argon, login, d), IssueOf(d, cfg, login.client);
            && (solo.outcome != Accepted ==> solo.t == t)
            && (Identified(t.users, argon, login, u) ==>
                  solo == Written(CreateAuthSession(t, now, issue, u, d.family)))
            && ((forall v :: !Identified(t.users, argon, login, v)) ==> solo == Solo(t, Rejected))
  {
    var found := GetUserByLogin(t, login.username, login.email).reply;
    if Identified(t.users, argon, login, u) {
      assert LoginMatches(t.users[u], login.username, login.email);
    }
    if found.UserReply? && found.user.active && PasswordFits(argon, login.password, found.user.passwordHash) {
      assert Identified(t.users, argon, login, found.userId);
    }
  }

  lemma LoginCreateProgram(t: Tables, now: Time, cfg: Config, user: Id, client: Client, d: Draw)
    ensures RunAlone(t, now, cfg, LoginCreate(user, client), d)
         == Written(CreateAuthSession(t, now, IssueOf(d, cfg, client), user, d.family))
  {}

  lemma RefreshProgramIsHandler(t: Tables, now: Time, cfg: Config, cookie: string, client: Client, d: Draw)
    ensures RunAlone(t, now, cfg, Refreshing(cookie, client), d)
         == Refreshed(t, now, PresentedHash(cookie), IssueOf(d, cfg, client))
  {}

  /** Likewise for logout and the two revocations, from behind the gate. */
  lemma RevokingProgramsAreHandlers(t: Tables, now: Time, cfg: Config, tok: AccessToken, id: Id, d: Draw)
    requires SessionShape(t.sessions) && ReplacementExists(t.sessions)
    ensures RunAlone(t, now, cfg, Ready(tok, Logout), d)
         == Solo(LoggedOutOf(t, now, tok.session, tok.subject), Accepted)
    ensures RunAlone(t, now, cfg, Ready(tok, RevokeOne(id)), d) ==
            Solo(LoggedOutOf(t, now, id, tok.subject),
                 if id in t.sessions && t.sessions[id].subject == tok.subject then Accepted else Rejected)
    ensures RunAlone(t, now, cfg, Ready(tok, RevokeAll), d) ==
            Solo(t.(sessions := RevokeLive(t.sessions, SubjectSessions(t.sessions, tok.subject), now, LoggedOut)),
                 Accepted)
  {
    RevokedAlone(t, now, tok.session, tok.subject);
    RevokedAlone(t, now, id, tok.subject);
  }

  lemma RevokedAlone(t: Tables, now: Time, id: Id, subject: Id)
    requires SessionShape(t.sessions) && ReplacementExists(t.sessions)
    ensures var e := RevokeAuthSession(t, now, id, subject, LoggedOut, None);
            && e.t == LoggedOutOf(t, now, id, subject)
            && e.reply == if id in t.sessions && t.sessions[id].subject == subject then Done else Failed(TokenNotFound)
  {
    if id in t.sessions && t.sessions[id].subject == subject {
      LogoutIsRevocation(t, now, id, subject);
    }
  }

  // ---- The handlers ----

  /** A reply that is no failure is the new session, stored as issued. */
  predicate Stores(e: Effect, issue: Issue)
  {
    || e.reply.Failed?
    || (e.reply.SessionReply? && issue.id in e.t.sessions
        && e.t.sessions[issue.id].hash == issue.hash && e.t.sessions[issue.id].Live())
  }

  lemma CreatedRowIsStored(t: Tables, now: Time, issue: Issue, subject: Id, family: Id)
    ensures var e := CreateAuthSession(t, now, issue, subject, family);
            && Stores(e, issue)
            && (e.reply.Failed? ==> e.t == t)
            && (!e.reply.Failed? ==> e.t.sessions[issue.id].subject == subject)
  {}

  lemma RefreshedBy(t: Tables, now: Time, presented: TokenHash, issue: Issue, e: Effect)
    requires e == RefreshAuthSession(t, now, presented, issue)
    ensures Refreshed(t, now, presented, issue) == Solo(e.t, if e.reply.Failed? then Rejected else Accepted)
    ensures Stores(e, issue)
  {}

  /** The access token and cookie for a session that has just been stored with the hash of the
      refresh token. */
  method IssueGrant(db: PsqlDB, cfg: Config, id: Id, cookie: string) returns (g: Grant)
    requires db.Valid()
    requires id in db.sessions && db.sessions[id].hash == HashRefreshToken(cookie) && db.sessions[id].Live()
    ensures Backs(db.sessions, g) && g.cookie == cookie
    ensures g.token ==
            AccessToken(db.sessions[id].subject, id, db.subjects[db.sessions[id].subject], db.clock + cfg.tokenTtl)
  {
    var subject := db.sessions[id].subject;
    g := Grant(AccessToken(subject, id, db.subjects[subject], db.clock + cfg.tokenTtl), cookie);
  }

  /** The new token pair, id and expiry of a login or refresh. */
  method DrawIssue(d: Draw, cfg: Config, client: Client) returns (issue: Issue, token: string)
    ensures issue == IssueOf(d, cfg, client) && token == CreateRefreshTokenPair(d.raw).token
    ensures issue.hash == HashRefreshToken(token)
  {
    var pair := CreateRefreshTokenPair(d.raw);
    return Issue(d.id, pair.hash, d.readAt + cfg.sessionTtl, client), pair.token;
  }

  /** AuthLogin after input validation. A grant is for an identified user; without one nothing changes. */
  method AuthLogin(db: PsqlDB, cfg: Config, argon: KeyDerivation, login: Login, d: Draw)
    returns (granted: Option<Grant>)
    requires db.Valid()
    modifies db`sessions
    ensures db.Valid()
    ensures Solo(db.View(), Verdict(granted)) == LoggedIn(old(db.View()), db.clock, cfg, argon, login, d)
    ensures granted.Some? ==>
      && Backs(db.sessions, granted.value) && granted.value.cookie == CreateRefreshTokenPair(d.raw).token
      && granted.value.token.expiresAt == db.clock + cfg.tokenTtl
      && Identified(old(db.users), argon, login, granted.value.token.subject)
    ensures granted.None? ==> db.View() == old(db.View())
  {
    ghost var t := db.View();
    var found := db.GetUser(None, login.username, login.email);
    if found.Failed? {
      return None;
    }
    if !found.user.active {
      return None;
    }
    var verdict := VerifyPassword(argon, login.password, found.user.passwordHash);
    if verdict != Ok(true) {
      return None;
    }
    assert Identified(db.users, argon, login, found.userId);
    var issue, token := DrawIssue(d, cfg, login.client);
    granted := OpenSession(db, cfg, found.userId, d.family, issue, token);
  }

  /** AuthLogin from the verified user on. */
  method OpenSession(db: PsqlDB, cfg: Config, user: Id, family: Id, issue: Issue, cookie: string)
    returns (granted: Option<Grant>)
    requires db.Valid() && issue.hash == HashRefreshToken(cookie)
    modifies db`sessions
    ensures db.Valid()
    ensures Solo(db.View(), Verdict(granted)) ==
            Written(CreateAuthSession(old(db.View()), db.clock, issue, user, family))
    ensures granted.Some? ==>
      && Backs(db.sessions, granted.value) && granted.value.cookie == cookie
      && granted.value.token.subject == user && granted.value.token.expiresAt == db.clock + cfg.tokenTtl
    ensures granted.None? ==> db.View() == old(db.View())
  {
    CreatedRowIsStored(db.View(), db.clock, issue, user, family);
    var reply := db.CreateAuthSession(issue, user, family);
    if reply.Failed? {
      return None;
    }
    var grant := IssueGrant(db, cfg, issue.id, cookie);
    return Some(grant);
  }

  predicate CookieAccepted(cookie: string, cfg: Config)
  {
    ValidateRefreshToken(cookie, cfg.refreshTokenLen).Ok?
  }

  /** The hash a refresh looks up, if the cookie passes the format check. */
  method ReadCookie(cookie: string, cfg: Config) returns (hash: Option<TokenHash>)
    ensures hash == if CookieAccepted(cookie, cfg) then Some(PresentedHash(cookie)) else None
  {
    var refreshToken := ValidateRefreshToken(cookie, cfg.refreshTokenLen);
    if refreshToken.Err? {
      return None;
    }
    RefreshTokenAcceptedExactly(cookie, cfg.refreshTokenLen);
    return Some(HashRefreshToken(refreshToken.value));
  }

  /** AuthRefresh. */
  method AuthRefresh(db: PsqlDB, cfg: Config, cookie: string, client: Client, d: Draw) returns (granted: Option<Grant>)
    requires db.Valid()
    modifies db`subjects, db`users, db`sessions, db`orgs, db`members
    ensures db.Valid()
    ensures Solo(db.View(), Verdict(granted)) ==
            if CookieAccepted(cookie, cfg)
            then Refreshed(old(db.View()), db.clock, PresentedHash(cookie), IssueOf(d, cfg, client))
            else Solo(old(db.View()), Rejected)
    ensures granted.Some? ==>
      && Backs(db.sessions, granted.value) && granted.value.cookie == CreateRefreshTokenPair(d.raw).token
      && granted.value.token.expiresAt == db.clock + cfg.tokenTtl
  {
    var presented := ReadCookie(cookie, cfg);
    if presented.None? {
      return None;
    }
    var issue, token := DrawIssue(d, cfg, client);
    granted := RotateSession(db, cfg, presented.value, issue, token);
  }

  /** AuthRefresh from the hash of the presented token on. */
  method RotateSession(db: PsqlDB, cfg: Config, presented: TokenHash, issue: Issue, cookie: string)
    returns (granted: Option<Grant>)
    requires db.Valid() && issue.hash == HashRefreshToken(cookie)
    modifies db`subjects, db`users, db`sessions, db`orgs, db`members
    ensures db.Valid()
    ensures Solo(db.View(), Verdict(granted)) == Refreshed(old(db.View()), db.clock, presented, issue)
    ensures granted.Some? ==>
      && Backs(db.sessions, granted.value) && granted.value.cookie == cookie
      && granted.value.token.expiresAt == db.clock + cfg.tokenTtl
  {
    ghost var t := db.View();
    var reply := db.RefreshAuthSession(presented, issue);
    RefreshedBy(t, db.clock, presented, issue, Effect(db.View(), reply));
    if reply.Failed? {
      return None;
    }
    var grant := IssueGrant(db, cfg, issue.id, cookie);
    return Some(grant);
  }

  /** The cookie of a grant, presented as it is, passes the format check and finds the grant's
      session and no other. */
  lemma GrantRefreshesItsSession(ss: map<Id, Session>, g: Grant, cfg: Config, raw: seq<Base64.Byte>)
    requires HashUnique(ss) && Backs(ss, g) && g.cookie == CreateRefreshTokenPair(raw).token
    requires |raw| == cfg.refreshTokenLen >= 1
    ensures CookieAccepted(g.cookie, cfg)
    ensures HashKnown(ss, PresentedHash(g.cookie)) && SessionOfHash(ss, PresentedHash(g.cookie)) == g.token.session
  {
    GeneratedTokenIsAccepted(raw);
    RefreshTokenAcceptedExactly(g.cookie, |raw|);
    HashOwner(ss, g.token.session);
  }

  /** AuthLogout behind the gate: a session that is not found counts as logged out. */
  method AuthLogout(db: PsqlDB, tok: AccessToken) returns (outcome: Outcome)
    requires db.Valid() && SessionShape(db.sessions)
    modifies db`sessions
    ensures db.Valid()
    ensures Solo(db.View(), outcome) == Solo(LoggedOutOf(old(db.View()), db.clock, tok.session, tok.subject), Accepted)
  {
    RevokedAlone(db.View(), db.clock, tok.session, tok.subject);
    var reply := db.RevokeAuthSession(tok.session, tok.subject, LoggedOut, None);
    outcome := Accepted;
    if reply.Failed? && reply.error != TokenNotFound {
      outcome := Errored;
    }
  }

  /** AuthSessionsRevokeAll behind the gate. */
  method AuthSessionsRevokeAll(db: PsqlDB, tok: AccessToken)
    requires db.Valid()
    modifies db`sessions
    ensures db.Valid() && NoLive(db.sessions, tok.subject)
    ensures OnlySubjectRevoked(old(db.sessions), db.sessions, tok.subject, db.clock, LoggedOut)
  {
    var _ := db.RevokeAllAuthSessions(tok.subject);
  }

  /** AuthSessionRevokeOne behind the gate: it reaches only sessions of the caller. */
  method AuthSessionRevokeOne(db: PsqlDB, tok: AccessToken, id: Id) returns (outcome: Outcome)
    requires db.Valid() && SessionShape(db.sessions)
    modifies db`sessions
    ensures db.Valid()
    ensures Solo(db.View(), outcome) ==
            Solo(LoggedOutOf(old(db.View()), db.clock, id, tok.subject),
                 if id in old(db.sessions) && old(db.sessions)[id].subject == tok.subject then Accepted else Rejected)
  {
    RevokedAlone(db.View(), db.clock, id, tok.subject);
    var reply := db.RevokeAuthSession(id, tok.subject, LoggedOut, None);
    return if reply.Failed? then Rejected else Accepted;
  }

  /** Logging a session out again, at any later time, changes nothing. */
  lemma LogoutIsIdempotent(t: Tables, now: Time, later: Time, id: Id, subject: Id)
    ensures var t' := LoggedOutOf(t, now, id, subject); LoggedOutOf(t', later, id, subject) == t'
  {
    var t' := LoggedOutOf(t, now, id, subject);
    if id in t'.sessions && t'.sessions[id].subject == subject {
      assert RevokeLive(t'.sessions, {id}, later, LoggedOut) == t'.sessions;
    }
  }
}
