/** The invariant of the whole service, and its induction over runs. */
module Invariants {
  import opened Schema
  import opened SessionSql
  import opened Requests
  import opened Machine
  import opened SessionHistory
  import opened Integrity

  /** Every identifier in the tables was drawn once. */
  ghost predicate Covered(t: Tables, used: set<Id>)
  {
    && t.subjects.Keys <= used
    && t.sessions.Keys <= used
    && forall i | i in t.sessions :: t.sessions[i].family in used
  }

  /** A signed token names an existing session of its own subject, and that subject is a user. */
  ghost predicate TokenBacked(ss: map<Id, Session>, tok: AccessToken)
  {
    tok.session in ss && ss[tok.session].subject == tok.subject && tok.kind == UserKind
  }

  ghost predicate TokensBacked(ss: map<Id, Session>, tokens: set<AccessToken>)
  {
    forall tok | tok in tokens :: TokenBacked(ss, tok)
  }

  predicate HasToken(r: Request)
  {
    !r.LoginLookup? && !r.LoginCreate? && !r.Refreshing? && !r.Registering?
  }

  predicate RequestBacked(users: map<Id, User>, tokens: set<AccessToken>, r: Request)
  {
    (r.LoginCreate? ==> r.user in users) && (HasToken(r) ==> r.tok in tokens)
  }

  ghost predicate RequestsBacked(s: System)
  {
    forall rid | rid in s.requests :: RequestBacked(s.t.users, s.tokens, s.requests[rid])
  }

  ghost predicate Invariant(s: System)
  {
    Sound(s.t, s.now) && Covered(s.t, s.used) && TokensBacked(s.t.sessions, s.tokens) && RequestsBacked(s)
  }

  // ---- Users ----

  /** Users are never deleted, and none is ever reactivated. */
  ghost predicate UsersEvolve(a: map<Id, User>, b: map<Id, User>)
  {
    forall u | u in a :: u in b && (b[u].active ==> a[u].active)
  }

  predicate WritesUsers(call: DbCall)
  {
    call.CallCreateUser? || call.CallUpdateUser? || call.CallDeactivateUser?
  }

  /** Only the three user calls change the users table: the cascade of an organization's
      deletion finds no user under its id. */
  lemma OtherCallsKeepUsers(t: Tables, now: Time, call: DbCall)
    requires KindsAgree(t.subjects, t.users, t.orgs) && !WritesUsers(call)
    ensures Apply(t, now, call).t.users == t.users
  {
    match call
    case CallDeleteOrganization(org, caller) =>
      if org in t.subjects && t.subjects[org] == OrganizationKind {
        assert org !in t.users;
      }
    case _ =>
  }

  lemma UserCallEvolvesUsers(t: Tables, now: Time, call: DbCall)
    requires WritesUsers(call) && t.users.Keys <= t.subjects.Keys
    ensures UsersEvolve(t.users, Apply(t, now, call).t.users)
  {
    match call
    case CallCreateUser(id, username, email, passwordHash, phone) =>
      CreateEvolvesUsers(t, id, username, email, passwordHash, phone);
    case CallUpdateUser(id, username, email, phoneText) =>
      UpdateEvolvesUsers(t, id, username, email, phoneText);
    case CallDeactivateUser(id) =>
      DeactivationEvolvesUsers(t, now, id);
  }

  lemma UpdateEvolvesUsers(t: Tables, id: Id, username: string, email: string, phoneText: string)
    ensures UsersEvolve(t.users, UpdateUser(t, id, username, email, phoneText).t.users)
  {}

  lemma DeactivationEvolvesUsers(t: Tables, now: Time, id: Id)
    ensures UsersEvolve(t.users, DeactivateUser(t, now, id).t.users)
  {}

  lemma CreateEvolvesUsers(t: Tables, id: Id, username: string, email: string, passwordHash: string, phone: int)
    requires t.users.Keys <= t.subjects.Keys
    ensures UsersEvolve(t.users, CreateUser(t, id, true, username, email, passwordHash, phone).t.users)
  {}

  lemma CallEvolvesUsers(t: Tables, now: Time, call: DbCall)
    requires KindsAgree(t.subjects, t.users, t.orgs)
    ensures UsersEvolve(t.users, Apply(t, now, call).t.users)
  {
    if WritesUsers(call) {
      UserCallEvolvesUsers(t, now, call);
    } else {
      OtherCallsKeepUsers(t, now, call);
    }
  }

  // ---- Sessions ----

  lemma CallEvolvesSessions(t: Tables, now: Time, call: DbCall)
    requires Sound(t, now)
    ensures Evolves(t.sessions, Apply(t, now, call).t.sessions)
  {
    SoundSubjects(t);
    CallMakesItsChange(t, now, call);
    ChangeEvolves(t.sessions, now, ChangeOf(t, now, call));
  }

  lemma EvolvedTokensStayBacked(a: map<Id, Session>, b: map<Id, Session>, tokens: set<AccessToken>)
    requires Evolves(a, b) && TokensBacked(a, tokens)
    ensures TokensBacked(b, tokens)
  {}

  /** A token is signed only for the session that was just created or rotated in, with that
      session's subject. */
  lemma SignedTokensAreBacked(s: System, rid: RequestId, d: Draw)
    requires Invariant(s) && rid in s.requests
    ensures var e := Apply(s.t, s.now, NextCall(s.requests[rid], d, s.cfg));
            forall tok | tok in Signed(s, e.t, s.requests[rid], e.reply) :: TokenBacked(e.t.sessions, tok)
  {
    var r := s.requests[rid];
    var call := NextCall(r, d, s.cfg);
    var e := Apply(s.t, s.now, call);
    if (r.LoginCreate? || r.Refreshing?) && e.reply.SessionReply? {
      SessionReplyIsStored(s.t, s.now, call);
      CallKeepsSound(s.t, s.now, call);
      assert e.t.sessions[e.reply.sessionId].subject in e.t.users;
    }
  }

  lemma SessionReplyIsStored(t: Tables, now: Time, call: DbCall)
    requires Apply(t, now, call).reply.SessionReply?
    ensures var e := Apply(t, now, call);
            e.reply.sessionId in e.t.sessions && e.t.sessions[e.reply.sessionId] == e.reply.session
  {}

  // ---- Drawn identifiers ----

  predicate UsesDraw(call: DbCall, d: Draw)
  {
    match call
    case CallCreateUser(id, _, _, _, _) => id == d.id
    case CallCreateAuthSession(issue, _, family) => issue.id == d.id && family == d.family
    case CallRefreshAuthSession(_, issue) => issue.id == d.id
    case CallCreateOrganization(org, _, _) => org == d.id
    case _ => true
  }

  lemma ChangeStaysCovered(ss: map<Id, Session>, now: Time, c: SessionChange, used: set<Id>)
    requires ChangeFits(ss, now, c)
    requires ss.Keys <= used && forall i | i in ss :: ss[i].family in used
    requires c.Opened? ==> c.id in used && c.row.family in used
    requires c.Replaced? ==> c.issue.id in used
    ensures Changed(ss, now, c).Keys <= used
    ensures forall i | i in Changed(ss, now, c) :: Changed(ss, now, c)[i].family in used
  {}

  lemma CallAddsDrawnSubject(t: Tables, now: Time, call: DbCall, d: Draw)
    requires UsesDraw(call, d)
    ensures Apply(t, now, call).t.subjects.Keys <= t.subjects.Keys + {d.id}
  {
    if !call.CallCreateUser? && !call.CallCreateOrganization? {
      OtherCallsAddNoSubject(t, now, call);
    }
  }

  lemma OtherCallsAddNoSubject(t: Tables, now: Time, call: DbCall)
    requires !call.CallCreateUser? && !call.CallCreateOrganization?
    ensures Apply(t, now, call).t.subjects.Keys <= t.subjects.Keys
  {}

  lemma CallStaysCovered(t: Tables, now: Time, call: DbCall, d: Draw, used: set<Id>)
    requires Sound(t, now) && Covered(t, used) && UsesDraw(call, d)
    ensures Covered(Apply(t, now, call).t, used + {d.id, d.family})
  {
    SoundSubjects(t);
    CallMakesItsChange(t, now, call);
    ChangeStaysCovered(t.sessions, now, ChangeOf(t, now, call), used + {d.id, d.family});
    CallAddsDrawnSubject(t, now, call, d);
  }

  // ---- One event ----

  /** A request keeps its token, and only a login's user read leads to a session insert. */
  lemma ContinueKeepsToken(r: Request, reply: Reply, now: Time, d: Draw, cfg: Config)
    ensures var p := Continue(r, reply, now, d, cfg);
            && (p.Pending? && HasToken(p.next) ==> HasToken(r) && p.next.tok == r.tok)
            && (p.Pending? && p.next.LoginCreate? ==>
                  r.LoginLookup? && reply == UserReply(p.next.user, reply.user) && reply.user.active)
  {}

  lemma LoginReadsAUser(t: Tables, username: string, email: string)
    ensures var reply := GetUserByLogin(t, username, email).reply;
            reply.UserReply? ==> reply.userId in t.users && t.users[reply.userId] == reply.user
  {}

  lemma RequestsStayBacked(s: System, rid: RequestId, d: Draw)
    requires RequestsBacked(s) && rid in s.requests
    requires forall u | u in s.t.users :: u in AfterCall(s, rid, d).t.users
    ensures RequestsBacked(AfterCall(s, rid, d))
  {
    var r, s' := s.requests[rid], AfterCall(s, rid, d);
    var reply := Apply(s.t, s.now, NextCall(r, d, s.cfg)).reply;
    ContinueKeepsToken(r, reply, s.now, d, s.cfg);
    if r.LoginLookup? {
      LoginReadsAUser(s.t, r.username, r.email);
    }
    forall k | k in s'.requests ensures RequestBacked(s'.t.users, s'.tokens, s'.requests[k]) {
      assert RequestBacked(s.t.users, s.tokens, if k == rid then r else s.requests[k]);
    }
  }

  /** A request's call inserts rows only under identifiers it drew, and sessions only for users. */
  lemma NextCallIsBacked(users: map<Id, User>, tokens: set<AccessToken>, r: Request, d: Draw, cfg: Config)
    requires RequestBacked(users, tokens, r)
    ensures UsesDraw(NextCall(r, d, cfg), d)
    ensures NextCall(r, d, cfg).CallCreateAuthSession? ==> NextCall(r, d, cfg).subject in users
  {}

  lemma AfterCallTables(s: System, rid: RequestId, d: Draw)
    requires rid in s.requests
    ensures var s' := AfterCall(s, rid, d);
            && s'.t == Apply(s.t, s.now, NextCall(s.requests[rid], d, s.cfg)).t
            && s'.now == s.now && s'.cfg == s.cfg && s'.used == s.used + {d.id, d.family} && s.tokens <= s'.tokens
  {}

  lemma TablesStaySound(s: System, rid: RequestId, d: Draw)
    requires Invariant(s) && rid in s.requests
    ensures Sound(AfterCall(s, rid, d).t, s.now)
    ensures Covered(AfterCall(s, rid, d).t, s.used + {d.id, d.family})
    ensures UsersEvolve(s.t.users, AfterCall(s, rid, d).t.users)
  {
    var call := NextCall(s.requests[rid], d, s.cfg);
    assert RequestBacked(s.t.users, s.tokens, s.requests[rid]);
    NextCallIsBacked(s.t.users, s.tokens, s.requests[rid], d, s.cfg);
    CallKeepsSound(s.t, s.now, call);
    CallStaysCovered(s.t, s.now, call, d, s.used);
    CallEvolvesUsers(s.t, s.now, call);
    AfterCallTables(s, rid, d);
  }

  lemma TokensStayBacked(s: System, rid: RequestId, d: Draw)
    requires Invariant(s) && rid in s.requests
    ensures TokensBacked(AfterCall(s, rid, d).t.sessions, AfterCall(s, rid, d).tokens)
  {
    CallEvolvesSessions(s.t, s.now, NextCall(s.requests[rid], d, s.cfg));
    EvolvedTokensStayBacked(s.t.sessions, AfterCall(s, rid, d).t.sessions, s.tokens);
    SignedTokensAreBacked(s, rid, d);
  }

  lemma CallKeepsInvariant(s: System, rid: RequestId, d: Draw)
    requires Invariant(s) && rid in s.requests
    ensures Invariant(AfterCall(s, rid, d))
  {
    AfterCallTables(s, rid, d);
    TablesStaySound(s, rid, d);
    TokensStayBacked(s, rid, d);
    RequestsStayBacked(s, rid, d);
  }

  lemma TickKeepsSound(t: Tables, now: Time, to: Time)
    requires Sound(t, now) && now <= to
    ensures Sound(t, to)
  {
    assert SessionClock(t.sessions, to) && MemberClock(t.members, to);
  }

  lemma NextKeepsInvariant(s: System, e: Event)
    requires Invariant(s) && Enabled(s, e)
    ensures Invariant(Next(s, e))
  {
    match e
    case Tick(to) => TickKeepsSound(s.t, s.now, to);
    case Begin(rid, r) => assert RequestBacked(s.t.users, s.tokens, r);
    case Call(rid, d) => CallKeepsInvariant(s, rid, d);
    case Abandon(rid) =>
  }

  // ---- Runs ----

  lemma {:induction false} StepsKeepInvariant(run: Run, n: nat)
    requires Steps(run) && Invariant(run.states[0]) && n < |run.states|
    ensures Invariant(run.states[n])
  {
    if n > 0 {
      StepsKeepInvariant(run, n - 1);
      assert StepAt(run, n - 1);
      NextKeepsInvariant(run.states[n - 1], run.events[n - 1]);
    }
  }

  /** The invariant holds in every state of every run. */
  lemma RunKeepsInvariant(run: Run, n: nat)
    requires IsRun(run) && n < |run.states|
    ensures Invariant(run.states[n])
  {
    StepsKeepInvariant(run, n);
  }

  lemma ReachableInvariant(s: System)
    requires Reachable(s)
    ensures Invariant(s)
  {
    var run :| IsRun(run) && s == run.states[|run.states| - 1];
    RunKeepsInvariant(run, |run.states| - 1);
  }

  lemma NextEvolvesSessions(s: System, e: Event)
    requires Invariant(s) && Enabled(s, e)
    ensures Evolves(s.t.sessions, Next(s, e).t.sessions)
  {
    if e.Call? {
      CallEvolvesSessions(s.t, s.now, CallOf(s, e));
      AfterCallTables(s, e.rid, e.draw);
    }
  }

  /** Between any two states of a run, in order, session rows stay and only evolve forwards. */
  lemma {:induction false} RunEvolves(run: Run, i: nat, j: nat)
    requires IsRun(run) && i <= j < |run.states|
    ensures Evolves(run.states[i].t.sessions, run.states[j].t.sessions)
  {
    if i < j {
      RunEvolves(run, i, j - 1);
      RunKeepsInvariant(run, j - 1);
      assert StepAt(run, j - 1);
      NextEvolvesSessions(run.states[j - 1], run.events[j - 1]);
      EvolvesTransitive(run.states[i].t.sessions, run.states[j - 1].t.sessions, run.states[j].t.sessions);
    }
  }

  lemma NextEvolvesUsers(s: System, e: Event)
    requires Invariant(s) && Enabled(s, e)
    ensures UsersEvolve(s.t.users, Next(s, e).t.users)
  {
    if e.Call? {
      CallEvolvesUsers(s.t, s.now, CallOf(s, e));
      AfterCallTables(s, e.rid, e.draw);
    }
  }

  lemma StepEvolvesUsers(run: Run, k: nat)
    requires IsRun(run) && k < |run.events|
    ensures UsersEvolve(run.states[k].t.users, run.states[k + 1].t.users)
  {
    RunKeepsInvariant(run, k);
    assert StepAt(run, k);
    NextEvolvesUsers(run.states[k], run.events[k]);
  }

  /** Along a run users stay, and none is reactivated. */
  lemma {:induction false} RunEvolvesUsers(run: Run, i: nat, j: nat)
    requires IsRun(run) && i <= j < |run.states|
    ensures UsersEvolve(run.states[i].t.users, run.states[j].t.users)
  {
    if i < j {
      RunEvolvesUsers(run, i, j - 1);
      StepEvolvesUsers(run, j - 1);
    }
  }

  /** Drawn identifiers, signed tokens and the clock only grow, and the configuration stays. */
  predicate Grows(a: System, b: System)
  {
    a.used <= b.used && a.tokens <= b.tokens && a.now <= b.now && a.cfg == b.cfg
  }

  lemma NextGrows(s: System, e: Event)
    requires Enabled(s, e)
    ensures Grows(s, Next(s, e))
  {
    if e.Call? {
      AfterCallTables(s, e.rid, e.draw);
    }
  }

  lemma {:induction false} RunGrows(run: Run, i: nat, j: nat)
    requires Steps(run) && i <= j < |run.states|
    ensures Grows(run.states[i], run.states[j])
  {
    if i < j {
      RunGrows(run, i, j - 1);
      assert StepAt(run, j - 1);
      NextGrows(run.states[j - 1], run.events[j - 1]);
    }
  }
}
