/** Where sessions, their changes and access tokens come from, in every run. */
module Origins {
  import opened Credentials
  import opened Schema
  import opened SessionSql
  import opened Requests
  import opened Machine
  import opened SessionHistory
  import opened Integrity
  import opened Invariants
  import opened Effects
  import opened SessionRuns

  // ---- Logins are verified ----

  /** Event m of a login finds the user, active and with the username and email asked for, and the
      password check passes. */
  ghost predicate VerifiesAt(run: Run, m: nat, rid: RequestId, u: Id, client: Client)
    requires WellFormed(run) && m < |run.events|
  {
    && CallsAt(run, m) && run.events[m].rid == rid && run.events[m].draw.passwordMatches
    && var us, r := run.states[m].t.users, run.states[m].requests[rid];
    && r.LoginLookup? && r.client == client && (r.username != "" || r.email != "")
    && u in us && us[u].active
    && (r.username != "" ==> us[u].username == r.username)
    && (r.email != "" ==> us[u].email == r.email)
  }

  lemma LookupFinds(t: Tables, username: string, email: string)
    ensures var reply := GetUserByLogin(t, username, email).reply;
            reply.UserReply? ==>
              && (username != "" || email != "")
              && reply.userId in t.users && t.users[reply.userId].active
              && (username != "" ==> t.users[reply.userId].username == username)
              && (email != "" ==> t.users[reply.userId].email == email)
  {}

  lemma ContinueVerifies(t: Tables, now: Time, r: Request, d: Draw, cfg: Config)
    ensures var p := Continue(r, Apply(t, now, NextCall(r, d, cfg)).reply, now, d, cfg);
            p.Pending? && p.next.LoginCreate? ==>
              && r.LoginLookup? && r.client == p.next.client && d.passwordMatches
              && GetUserByLogin(t, r.username, r.email).reply.UserReply?
              && GetUserByLogin(t, r.username, r.email).reply.userId == p.next.user
  {}

  lemma LoginByStep(run: Run, n: nat, rid: RequestId, u: Id, client: Client)
    requires Steps(run) && n < |run.events|
    requires rid in run.states[n + 1].requests && run.states[n + 1].requests[rid] == LoginCreate(u, client)
    ensures || VerifiesAt(run, n, rid, u, client)
            || (rid in run.states[n].requests && run.states[n].requests[rid] == LoginCreate(u, client))
  {
    assert StepAt(run, n);
    var s, e := run.states[n], run.events[n];
    if e.Call? && e.rid == rid {
      var r := s.requests[rid];
      ContinueVerifies(s.t, s.now, r, e.draw, s.cfg);
      if r.LoginLookup? {
        LookupFinds(s.t, r.username, r.email);
      }
    }
  }

  /** The login waits for its insert from state m + 1 to state n. */
  ghost predicate InsertPending(run: Run, m: nat, n: nat, rid: RequestId, u: Id, client: Client)
    requires WellFormed(run) && n < |run.states|
  {
    forall k | m < k <= n :: rid in run.states[k].requests && run.states[k].requests[rid] == LoginCreate(u, client)
  }

  /** A login that is about to open a session was verified at an earlier event of the same request. */
  lemma {:induction false} VerifiedEarlier(run: Run, n: nat, rid: RequestId, u: Id, client: Client) returns (m: nat)
    requires IsRun(run) && n < |run.states|
    requires rid in run.states[n].requests && run.states[n].requests[rid] == LoginCreate(u, client)
    ensures m < n && VerifiesAt(run, m, rid, u, client) && InsertPending(run, m, n, rid, u, client)
  {
    LoginByStep(run, n - 1, rid, u, client);
    if VerifiesAt(run, n - 1, rid, u, client) {
      m := n - 1;
    } else {
      m := VerifiedEarlier(run, n - 1, rid, u, client);
    }
  }

  // ---- New sessions ----

  /** The columns a session takes from the draw of its event: the hash of the new refresh token, and
      the expiry a session's time to live after the clock reading. */
  predicate ByDraw(row: Session, d: Draw, cfg: Config)
  {
    row.hash == CreateRefreshTokenPair(d.raw).hash && row.expiresAt == d.readAt + cfg.sessionTtl
  }

  /** Event n opens the session for a user, with what it drew and the client of its request, and the
      user was verified earlier in that request. */
  ghost predicate OpenedByLogin(run: Run, n: nat, id: Id)
    requires WellFormed(run) && n < |run.events|
  {
    && CallsAt(run, n) && id in run.states[n + 1].t.sessions
    && var s, e := run.states[n], run.events[n];
       var r := s.requests[e.rid];
    && r.LoginCreate? && id == e.draw.id
    && ByDraw(run.states[n + 1].t.sessions[id], e.draw, s.cfg)
    && IsIssued(run.states[n + 1].t.sessions[id], r.user, e.draw.family, IssueOf(e.draw, s.cfg, r.client), s.now)
    && exists m :: 0 <= m < n && VerifiesAt(run, m, e.rid, r.user, r.client)
                   && InsertPending(run, m, n, e.rid, r.user, r.client)
  }

  /** Event n redeems a token of the session's family for it. */
  ghost predicate OpenedByRefresh(run: Run, n: nat, id: Id)
    requires WellFormed(run) && n < |run.events|
  {
    && CallsAt(run, n) && id in run.states[n + 1].t.sessions
    && var s, e := run.states[n], run.events[n];
       var r := s.requests[e.rid];
    && r.Refreshing? && id == e.draw.id
    && ByDraw(run.states[n + 1].t.sessions[id], e.draw, s.cfg)
    && exists replaced :: replaced in s.t.sessions && Redeems(run, n, s.t.sessions[replaced].hash)
         && IsIssued(run.states[n + 1].t.sessions[id], s.t.sessions[replaced].subject, s.t.sessions[replaced].family,
                     IssueOf(e.draw, s.cfg, r.client), s.now)
  }

  lemma OpenedRequest(run: Run, n: nat)
    requires Steps(run) && n < |run.events| && ChangeAt(run, n).Opened?
    ensures CallsAt(run, n)
    ensures var s, e, c := run.states[n], run.events[n], ChangeAt(run, n);
            var r := s.requests[e.rid];
            && r.LoginCreate? && c.id == e.draw.id
            && c.row == NewSession(r.user, e.draw.family, IssueOf(e.draw, s.cfg, r.client), s.now)
            && Storable(r.client)
  {}

  lemma ReplacedRequest(run: Run, n: nat)
    requires Steps(run) && n < |run.events| && ChangeAt(run, n).Replaced?
    ensures CallsAt(run, n)
    ensures var s, e, c := run.states[n], run.events[n], ChangeAt(run, n);
            var r := s.requests[e.rid];
            r.Refreshing? && c.issue == IssueOf(e.draw, s.cfg, r.client) && Storable(r.client)
  {}

  lemma NewSessionIsIssued(subject: Id, family: Id, issue: Issue, now: Time)
    requires Storable(issue.client)
    ensures IsIssued(NewSession(subject, family, issue, now), subject, family, issue, now)
  {}

  /** Every session that comes to be in a run was opened by a login whose password check passed
      earlier in the same request, or by redeeming a token of its family. */
  lemma NewSessionsHaveAnOrigin(run: Run, n: nat, id: Id)
    requires IsRun(run) && n < |run.events|
    requires id !in run.states[n].t.sessions && id in run.states[n + 1].t.sessions
    ensures OpenedByLogin(run, n, id) || OpenedByRefresh(run, n, id)
  {
    var s, e, c := run.states[n], run.events[n], ChangeAt(run, n);
    StepMakesItsChange(run, n);
    match c
    case Opened(_, _) =>
      OpenedRequest(run, n);
      var r := s.requests[e.rid];
      NewSessionIsIssued(r.user, e.draw.family, IssueOf(e.draw, s.cfg, r.client), s.now);
      var m := VerifiedEarlier(run, n, e.rid, r.user, r.client);
    case Replaced(replaced, issue) =>
      ReplacedRequest(run, n);
      ReplacingRedeems(run, n);
      NewSessionIsIssued(s.t.sessions[replaced].subject, s.t.sessions[replaced].family, issue, s.now);
    case _ =>
  }

  // ---- Changes of stored sessions ----

  /** What ends a session besides a refresh: logout of it, revocation of it or of all, and account
      deletion. */
  predicate Reaches(act: Act, own: Id, id: Id)
  {
    (act == Logout && id == own) || act == RevokeOne(id) || act == RevokeAll || act == DeleteUser
  }

  /** Event n is a refresh with a token of the session's family, or a logout, revocation or account
      deletion with an access token of the session's own subject that reaches this session. */
  ghost predicate MayChangeRow(run: Run, n: nat, id: Id)
    requires WellFormed(run) && n < |run.events|
  {
    && CallsAt(run, n) && id in run.states[n].t.sessions
    && var ss, r := run.states[n].t.sessions, run.states[n].requests[run.events[n].rid];
    || (r.Refreshing? && TokenOf(ss, PresentedHash(r.cookie), ss[id].family))
    || (&& r.Ready? && r.tok.subject == ss[id].subject
        && Reaches(r.act, r.tok.session, id))
  }

  /** Each change of a row is one of these. */
  lemma ChangedRowIsReached(t: Tables, now: Time, r: Request, d: Draw, cfg: Config, id: Id)
    requires SessionShape(t.sessions) && SubjectsAreUsers(t.sessions, t.subjects) && id in t.sessions
    requires var ss' := Apply(t, now, NextCall(r, d, cfg)).t.sessions; id !in ss' || ss'[id] != t.sessions[id]
    ensures || (r.Refreshing? && TokenOf(t.sessions, PresentedHash(r.cookie), t.sessions[id].family))
            || (&& r.Ready? && r.tok.subject == t.sessions[id].subject
                && Reaches(r.act, r.tok.session, id))
  {
    CallMakesItsChange(t, now, NextCall(r, d, cfg));
    ChangeReachesRow(t, now, r, d, cfg, id);
  }

  lemma ChangeReachesRow(t: Tables, now: Time, r: Request, d: Draw, cfg: Config, id: Id)
    requires id in t.sessions
    requires var c := ChangeOf(t, now, NextCall(r, d, cfg));
             && ChangeFits(t.sessions, now, c)
             && (id !in Changed(t.sessions, now, c) || Changed(t.sessions, now, c)[id] != t.sessions[id])
    ensures || (r.Refreshing? && TokenOf(t.sessions, PresentedHash(r.cookie), t.sessions[id].family))
            || (&& r.Ready? && r.tok.subject == t.sessions[id].subject
                && Reaches(r.act, r.tok.session, id))
  {}

  /** In every run a stored session changes only by a refresh with a token of its family, or by its
      own subject: no request of another subject touches it. */
  lemma SessionsChangeByTheirOwner(run: Run, n: nat, id: Id)
    requires IsRun(run) && n < |run.events| && id in run.states[n].t.sessions
    requires id !in run.states[n + 1].t.sessions || run.states[n + 1].t.sessions[id] != run.states[n].t.sessions[id]
    ensures MayChangeRow(run, n, id)
  {
    var s, e := run.states[n], run.events[n];
    RunKeepsInvariant(run, n);
    SoundSubjects(s.t);
    assert StepAt(run, n);
    if e.Call? {
      AfterCallTables(s, e.rid, e.draw);
      ChangedRowIsReached(s.t, s.now, s.requests[e.rid], e.draw, s.cfg, id);
    }
  }

  // ---- Access tokens ----

  /** Event n signs the token, for the session it has just stored and with the configured time to
      live. */
  ghost predicate SignsAt(run: Run, n: nat, tok: AccessToken)
    requires WellFormed(run) && n < |run.events|
  {
    && CallsAt(run, n)
    && var s, e := run.states[n], run.events[n];
       var ss' := run.states[n + 1].t.sessions;
    && (s.requests[e.rid].LoginCreate? || s.requests[e.rid].Refreshing?)
    && tok.session == e.draw.id && tok.session !in s.t.sessions && tok.session in ss'
    && tok.subject == ss'[tok.session].subject && tok.kind == UserKind
    && tok.expiresAt == s.now + s.cfg.tokenTtl
  }

  lemma SignedForReply(s: System, t: Tables, r: Request, reply: Reply, tok: AccessToken)
    requires tok in Signed(s, t, r, reply)
    ensures (r.LoginCreate? || r.Refreshing?) && reply.SessionReply?
    ensures tok.session == reply.sessionId && tok.subject == reply.session.subject
    ensures tok.expiresAt == s.now + s.cfg.tokenTtl
  {}

  lemma SessionReplyIsNew(t: Tables, now: Time, r: Request, d: Draw, cfg: Config)
    requires r.LoginCreate? || r.Refreshing?
    requires Apply(t, now, NextCall(r, d, cfg)).reply.SessionReply?
    ensures var e := Apply(t, now, NextCall(r, d, cfg));
            && e.reply.sessionId == d.id && d.id !in t.sessions
            && d.id in e.t.sessions && e.t.sessions[d.id] == e.reply.session
  {}

  /** In every run a token that comes to be signed is for the session of a login or refresh at that
      event, and expires after the configured time. */
  lemma TokensAreSignedForNewSessions(run: Run, n: nat, tok: AccessToken)
    requires IsRun(run) && n < |run.events| && tok !in run.states[n].tokens && tok in run.states[n + 1].tokens
    ensures SignsAt(run, n, tok)
  {
    var s, e := run.states[n], run.events[n];
    assert StepAt(run, n);
    RunKeepsInvariant(run, n + 1);
    assert TokenBacked(run.states[n + 1].t.sessions, tok);
    NewTokenIsSigned(s, e, tok);
    var r := s.requests[e.rid];
    var effect := Apply(s.t, s.now, NextCall(r, e.draw, s.cfg));
    SignedForReply(s, effect.t, r, effect.reply, tok);
    SessionReplyIsNew(s.t, s.now, r, e.draw, s.cfg);
    AfterCallTables(s, e.rid, e.draw);
  }

  lemma NewTokenIsSigned(s: System, e: Event, tok: AccessToken)
    requires Enabled(s, e) && tok !in s.tokens && tok in Next(s, e).tokens
    ensures e.Call?
    ensures var r := s.requests[e.rid];
            var effect := Apply(s.t, s.now, NextCall(r, e.draw, s.cfg));
            tok in Signed(s, effect.t, r, effect.reply)
  {}

  lemma {:induction false} SignedEarlier(run: Run, n: nat, tok: AccessToken) returns (m: nat)
    requires IsRun(run) && n < |run.states| && tok in run.states[n].tokens
    ensures m < n && SignsAt(run, m, tok)
  {
    if tok in run.states[n - 1].tokens {
      m := SignedEarlier(run, n - 1, tok);
    } else {
      TokensAreSignedForNewSessions(run, n - 1, tok);
      m := n - 1;
    }
  }

  /** A request begins with an access token only within the time to live after a login or refresh
      signed it. */
  lemma TokensAreUsedInTime(run: Run, n: nat, rid: RequestId, tok: AccessToken, act: Act) returns (m: nat)
    requires IsRun(run) && n < |run.events| && run.events[n] == Begin(rid, Gate(tok, act))
    ensures m < n && SignsAt(run, m, tok) && run.states[n].now < run.states[m].now + run.states[m].cfg.tokenTtl
  {
    assert StepAt(run, n);
    m := SignedEarlier(run, n, tok);
  }
}
