/** A run in which a refresh overtakes a logout between its gate and its revocation. */
module LateLogout {
  import opened Credentials
  import opened Schema
  import opened SessionSql
  import opened Requests
  import opened Machine
  import opened SessionHistory
  import opened Invariants
  import opened Auth
  import opened Logout
  import opened FirstLogin

  function Cookie(): string
  {
    CreateRefreshTokenPair([0]).token
  }

  function NextIssue(): Issue
  {
    IssueOf(Fresh(9, 1), CFG, CLIENT)
  }

  const GATED: System := Gated(S5, 0, Logout, Fresh(7, 0))
  const REFRESHING: System := Begun(GATED, 1, Refreshing(Cookie(), CLIENT))

  lemma ComesPastGate()
    ensures Reachable(GATED)
  {
    LogsIn();
    PassesGate(S5, 0, Logout, Fresh(7, 0));
    LeadsToReachable(S5, GATED);
  }

  lemma StartsRefresh()
    ensures Reachable(REFRESHING)
  {
    ComesPastGate();
    GeneratedTokenIsAccepted([0]);
    OneMoreStep(GATED, Begin(1, Refreshing(Cookie(), CLIENT)));
  }

  /** The cookie of the first login rotates its session. */
  lemma RotationEffect(cookie: string, issue: Issue)
    requires cookie == Cookie() && issue == NextIssue()
    ensures var e := RefreshAuthSession(S5.t, 0, PresentedHash(cookie), issue);
            e.reply.SessionReply? && e.t.sessions == Rotate(S5.t.sessions, 5, issue, 0)
  {
    GeneratedTokenIsAccepted([0]);
    RefreshTokenAcceptedExactly(cookie, 1);
    assert S5.t.sessions[5].hash == PresentedHash(cookie);
    assert HashKnown(S5.t.sessions, PresentedHash(cookie));
  }

  /** The refresh at its call, told apart from the rest of the state. */
  lemma RefreshCall(s: System, cookie: string, d: Draw)
    requires 1 in s.requests && s.requests[1] == Refreshing(cookie, CLIENT) && s.cfg == CFG && s.now == 0
    requires RefreshAuthSession(s.t, 0, PresentedHash(cookie), IssueOf(d, CFG, CLIENT)).reply.SessionReply?
    ensures var s' := AfterCall(s, 1, d);
            && s'.t == RefreshAuthSession(s.t, 0, PresentedHash(cookie), IssueOf(d, CFG, CLIENT)).t
            && s'.requests == s.requests - {1} && s'.used == s.used + {d.id, d.family} && s'.now == 0
  {
    assert NextCall(s.requests[1], d, CFG) == CallRefreshAuthSession(PresentedHash(cookie), IssueOf(d, CFG, CLIENT));
  }

  /** The logout waits behind its gate while its session is rotated. */
  ghost predicate Overtaken(s: System)
  {
    && s.requests == map[0 := Ready(TOKEN, Logout)] && s.now == 0
    && s.t.sessions == Rotate(S5.t.sessions, 5, NextIssue(), 0)
  }

  lemma RefreshOvertakes(d: Draw)
    requires d == Fresh(9, 1)
    ensures Overtaken(AfterCall(REFRESHING, 1, d))
  {
    var cookie := Cookie();
    RotationEffect(cookie, NextIssue());
    RefreshCall(REFRESHING, cookie, d);
    assert REFRESHING.requests - {1} == map[0 := Ready(TOKEN, Logout)];
  }

  lemma StateAfterRefresh() returns (s: System, d: Draw)
    ensures Reachable(s) && Overtaken(s) && Drawable(s, d)
  {
    var refresh := Fresh(9, 1);
    StartsRefresh();
    DrawsAgain(REFRESHING, 1, refresh, Fresh(11, 0));
    RefreshOvertakes(refresh);
    OneMoreStep(REFRESHING, Call(1, refresh));
    s, d := AfterCall(REFRESHING, 1, refresh), Fresh(11, 0);
  }

  /** A reachable state with a logout past its gate that will be accepted and leave the family of
      its session live. */
  lemma LogoutCanLeaveFamilyLive() returns (s: System, d: Draw)
    ensures Reachable(s) && Drawable(s, d)
    ensures 0 in s.requests && s.requests[0] == Ready(TOKEN, Logout) && TOKEN.session in s.t.sessions
    ensures ProgressOf(s, 0, d) == Finished(Accepted)
    ensures !Dead(AfterCall(s, 0, d).t.sessions, s.t.sessions[TOKEN.session].family)
  {
    s, d := StateAfterRefresh();
    ReachableInvariant(s);
    LeavesSuccessorLive(s, d);
  }

  lemma LeavesSuccessorLive(s: System, d: Draw)
    requires SessionShape(s.t.sessions) && ReplacementExists(s.t.sessions)
    requires Overtaken(s)
    ensures 0 in s.requests && s.requests[0] == Ready(TOKEN, Logout)
    ensures TOKEN.session in s.t.sessions && ProgressOf(s, 0, d) == Finished(Accepted)
    ensures !Dead(AfterCall(s, 0, d).t.sessions, s.t.sessions[TOKEN.session].family)
  {
    var ss := s.t.sessions;
    RotatedRows(ss);
    RevokedAlone(s.t, 0, 5, 1);
    LogoutCallRevokes(s, 0, d, TOKEN);
    SuccessorStaysLive(ss, 0);
  }

  lemma RotatedRows(ss: map<Id, Session>)
    requires ss == Rotate(S5.t.sessions, 5, NextIssue(), 0)
    ensures 5 in ss && ss[5].subject == 1 && ss[5].family == 6
    ensures 9 in ss && ss[9].Live() && ss[9].family == 6
  {}

  lemma SuccessorStaysLive(ss: map<Id, Session>, now: Time)
    requires 9 in ss && ss[9].Live() && ss[9].family == 6
    ensures !Dead(RevokeLive(ss, {5}, now, LoggedOut), 6)
  {
    assert RevokeLive(ss, {5}, now, LoggedOut)[9] == ss[9];
  }
}
