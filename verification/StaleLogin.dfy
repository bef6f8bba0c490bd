/** A run in which a login that read ann before her deactivation outlives it. */
module StaleLogin {
  import opened Schema
  import opened SessionSql
  import opened Requests
  import opened Machine
  import opened Deactivation
  import opened FirstLogin

  const S7: System := Begun(S5, 0, LoginCreate(1, CLIENT)).(used := S5.used + {7, 8})
  const S9: System := Begun(S7, 1, Ready(TOKEN, DeleteUser)).(used := S7.used + {9, 10})
  const S10: System := S7.(
    t := S5.t.(users := map[1 := ANN.(active := false)],
               sessions := map[5 := Revoke(FirstSession(), 0, UserDeactivated)]),
    used := S9.used + {11, 12})

  lemma GetsPastGate()
    ensures Reachable(S9)
  {
    LogsIn();
    LooksUp(S5, Fresh(7, 0));
    PassesGate(S7, 1, DeleteUser, Fresh(9, 0));
    LeadsToReachable(S7, S9);
  }

  lemma DeactivationEffect()
    ensures DeactivateUser(S5.t, 0, 1) == Effect(S10.t, Done)
  {
    assert RevokeLive(S5.t.sessions, SubjectSessions(S5.t.sessions, 1), 0, UserDeactivated) == S10.t.sessions;
  }

  lemma DeleteCall(s: System, rid: RequestId, d: Draw)
    requires rid in s.requests && s.requests[rid] == Ready(TOKEN, DeleteUser)
    ensures AfterCall(s, rid, d) == Drawn(s.(t := DeactivateUser(s.t, s.now, 1).t, requests := s.requests - {rid}), d)
  {
    assert s.creators + map[] == s.creators && s.tokens + {} == s.tokens;
  }

  lemma DeactivatingStep(d: Draw)
    requires d == Fresh(11, 0)
    ensures AfterCall(S9, 1, d) == S10
  {
    DeactivationEffect();
    DeleteCall(S9, 1, d);
    assert S9.requests - {1} == S10.requests;
  }

  lemma Deactivates()
    ensures Reachable(S10)
  {
    GetsPastGate();
    var d := Fresh(11, 0);
    DeactivatingStep(d);
    OneMoreStep(S9, Call(1, d));
  }

  lemma NothingLive()
    ensures Inactive(S10, 1) && NoLive(S10.t.sessions, 1)
  {}

  lemma UnusedDraw()
    ensures GoodDraw(S10, Fresh(13, 1))
  {
    UnusedToken(S10.t.sessions, [0], [1]);
  }

  /** A reachable state with an inactive user, no live session of hers, and a login of hers past
      its password check. */
  lemma LoginIsStale() returns (s: System, d: Draw)
    ensures Reachable(s) && Inactive(s, 1) && !HasLiveSession(s, 1) && LoginPending(s, 1) && GoodDraw(s, d)
  {
    s, d := S10, Fresh(13, 1);
    Deactivates();
    NothingLive();
    UnusedDraw();
    assert IsPendingLogin(s.requests[0], 1);
  }

  /** So a reachable state has an inactive user with a live session: logins and deactivations
      that interleave do not keep what serial ones keep. */
  lemma InactiveUserCanHaveSession() returns (s: System)
    ensures Reachable(s) && Inactive(s, 1) && HasLiveSession(s, 1)
  {
    var stale, d := LoginIsStale();
    InactiveUserRegainsSessionExactly(stale, d, 1);
    s :| Leads(stale, s) && HasLiveSession(s, 1);
    LeadsToReachable(stale, s);
    StaysInactive(stale, s);
  }

  lemma StaysInactive(s: System, s': System)
    requires Reachable(s) && Leads(s, s') && Inactive(s, 1)
    ensures Inactive(s', 1)
  {
    var a :| IsRun(a) && s == a.states[|a.states| - 1];
    var b :| Steps(b) && b.states[0] == s && b.states[|b.states| - 1] == s';
    JoinedSteps(a, b);
    var run := Joined(a, b);
    assert IsRun(run) && run.states[|a.states| - 1] == s;
    DeactivationIsFinal(run, |a.states| - 1, |run.states| - 1, 1);
  }
}
