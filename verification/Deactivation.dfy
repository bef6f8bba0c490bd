/** Deactivating a user is final, and leaves no live session behind exactly when no login of that
    user is between its user read and its session insert. */
module Deactivation {
  import opened Credentials
  import opened Schema
  import opened SessionSql
  import opened Requests
  import opened Machine
  import opened SessionHistory
  import opened Integrity
  import opened Invariants
  import opened SessionRuns
  import opened Gate

  predicate Inactive(s: System, u: Id)
  {
    u in s.t.users && !s.t.users[u].active
  }

  ghost predicate HasLiveSession(s: System, u: Id)
  {
    !NoLive(s.t.sessions, u)
  }

  /** A login of the user has read the active row and not yet inserted its session, and its
      client columns can be stored. */
  predicate IsPendingLogin(r: Request, u: Id)
  {
    r.LoginCreate? && r.user == u && Storable(r.client)
  }

  ghost predicate LoginPending(s: System, u: Id)
  {
    exists rid :: rid in s.requests && IsPendingLogin(s.requests[rid], u)
  }

  /** No run reactivates a user, and from then on no session of that user is rotated, however
      requests interleave. */
  lemma DeactivationIsFinal(run: Run, i: nat, j: nat, u: Id)
    requires IsRun(run) && i <= j < |run.states| && Inactive(run.states[i], u)
    ensures Inactive(run.states[j], u)
    ensures j < |run.events| ==> forall hash, id ::
      Redeems(run, j, hash) && id in run.states[j].t.sessions && run.states[j].t.sessions[id].hash == hash
      ==> run.states[j].t.sessions[id].subject != u
  {
    RunEvolvesUsers(run, i, j);
    if j < |run.events| {
      forall hash, id
        | Redeems(run, j, hash) && id in run.states[j].t.sessions && run.states[j].t.sessions[id].hash == hash
        ensures run.states[j].t.sessions[id].subject != u
      {
        RunKeepsInvariant(run, j);
        HashOwner(run.states[j].t.sessions, id);
        RedeemingReplaces(run, j, hash);
      }
    }
  }

  // ---- Quiet users ----

  /** Inactive, without live sessions, and without a login on its way to one. */
  ghost predicate Quiet(s: System, u: Id)
  {
    Inactive(s, u) && !HasLiveSession(s, u) && !LoginPending(s, u)
  }

  ghost predicate NoLive(ss: map<Id, Session>, u: Id)
  {
    forall i | i in ss && ss[i].subject == u :: !ss[i].Live()
  }

  lemma ChangeKeepsNoLive(ss: map<Id, Session>, now: Time, c: SessionChange, u: Id)
    requires NoLive(ss, u) && ChangeFits(ss, now, c)
    requires c.Opened? ==> c.row.subject != u
    ensures NoLive(Changed(ss, now, c), u)
  {}

  lemma ChangeBringsNoSession(t: Tables, now: Time, call: DbCall, u: Id)
    requires Sound(t, now) && u in t.users && !t.users[u].active
    requires NoLive(t.sessions, u)
    requires call.CallCreateAuthSession? ==> call.subject != u || !Storable(call.issue.client)
    ensures NoLive(Apply(t, now, call).t.sessions, u)
  {
    SoundSubjects(t);
    CallMakesItsChange(t, now, call);
    ChangeKeepsNoLive(t.sessions, now, ChangeOf(t, now, call), u);
  }

  lemma CallKeepsQuiet(s: System, rid: RequestId, d: Draw, u: Id)
    requires Invariant(s) && rid in s.requests && Quiet(s, u)
    ensures Quiet(AfterCall(s, rid, d), u)
  {
    var r := s.requests[rid];
    var call := NextCall(r, d, s.cfg);
    var reply := Apply(s.t, s.now, call).reply;
    AfterCallTables(s, rid, d);
    CallEvolvesUsers(s.t, s.now, call);
    ContinueKeepsToken(r, reply, s.now, d, s.cfg);
    if r.LoginLookup? {
      LoginReadsAUser(s.t, r.username, r.email);
    }
    InsertsForItsUser(r, d, s.cfg);
    ChangeBringsNoSession(s.t, s.now, call, u);
    QuietRequests(s, rid, d, u);
  }

  lemma InsertsForItsUser(r: Request, d: Draw, cfg: Config)
    ensures var call := NextCall(r, d, cfg);
            call.CallCreateAuthSession? ==> r == LoginCreate(call.subject, call.issue.client)
  {}

  lemma QuietRequests(s: System, rid: RequestId, d: Draw, u: Id)
    requires rid in s.requests && !LoginPending(s, u) && Inactive(s, u)
    ensures !LoginPending(AfterCall(s, rid, d), u)
  {
    var r := s.requests[rid];
    ContinueKeepsToken(r, Apply(s.t, s.now, NextCall(r, d, s.cfg)).reply, s.now, d, s.cfg);
    if r.LoginLookup? {
      LoginReadsAUser(s.t, r.username, r.email);
    }
  }

  lemma NextKeepsQuiet(s: System, e: Event, u: Id)
    requires Invariant(s) && Enabled(s, e) && Quiet(s, u)
    ensures Quiet(Next(s, e), u)
  {
    if e.Call? {
      CallKeepsQuiet(s, e.rid, e.draw, u);
    }
  }

  lemma StepKeepsQuiet(run: Run, n: nat, u: Id)
    requires Steps(run) && 0 < n < |run.states| && Invariant(run.states[n - 1]) && Quiet(run.states[n - 1], u)
    ensures Invariant(run.states[n]) && Quiet(run.states[n], u)
  {
    assert StepAt(run, n - 1);
    NextKeepsInvariant(run.states[n - 1], run.events[n - 1]);
    NextKeepsQuiet(run.states[n - 1], run.events[n - 1], u);
  }

  lemma {:induction false} StepsKeepQuiet(run: Run, n: nat, u: Id)
    requires Steps(run) && Invariant(run.states[0]) && n < |run.states| && Quiet(run.states[0], u)
    ensures Invariant(run.states[n]) && Quiet(run.states[n], u)
  {
    if n > 0 {
      StepsKeepQuiet(run, n - 1, u);
      StepKeepsQuiet(run, n, u);
    }
  }

  // ---- When a deactivated user is left with a session ----

  /** A deactivation that takes effect leaves the user inactive and without live sessions. */
  lemma DeactivationRevokesAll(t: Tables, now: Time, u: Id)
    requires DeactivateUser(t, now, u).reply.Done?
    ensures var t' := DeactivateUser(t, now, u).t;
            && u in t'.users && !t'.users[u].active
            && NoLive(t'.sessions, u)
  {}

  /** From a deactivation on, the gate turns away every access token of the user signed until then. */
  lemma DeactivationShutsOut(run: Run, j: nat, k: nat, u: Id, tok: AccessToken)
    requires IsRun(run) && j < |run.events| && j < k < |run.states|
    requires CallsAt(run, j) && CallAt(run, j) == CallDeactivateUser(u) && ReplyAt(run, j).Done?
    requires tok in run.states[j + 1].tokens && tok.subject == u
    ensures !Accepts(run.states[k].t, run.states[k].now, tok)
  {
    var s, s', e := run.states[j], run.states[j + 1], run.events[j];
    assert StepAt(run, j);
    AfterCallTables(s, e.rid, e.draw);
    DeactivationRevokesAll(s.t, s.now, u);
    assert NoLive(s'.t.sessions, u);
    RunStatesAreReachable(run, j + 1);
    SignedTokenMatches(s', tok);
    RejectionIsPermanent(run, j + 1, k, tok);
  }

  /** An insert by a pending login that draws an unused token, before the new expiry. */
  ghost predicate GoodDraw(s: System, d: Draw)
  {
    && Drawable(s, d)
    && !HashKnown(s.t.sessions, CreateRefreshTokenPair(d.raw).hash)
    && s.now < d.readAt + s.cfg.sessionTtl
  }

  lemma FreshInsertCommits(t: Tables, used: set<Id>, now: Time, issue: Issue, u: Id, family: Id)
    requires Covered(t, used) && u in t.subjects && issue.id !in used && family !in used
    requires !HashKnown(t.sessions, issue.hash) && now < issue.expiresAt && Storable(issue.client)
    ensures !NoLive(CreateAuthSession(t, now, issue, u, family).t.sessions, u)
  {
    var row := NewSession(u, family, issue, now);
    assert Insertable(t.sessions, issue.id, row);
    assert CreateAuthSession(t, now, issue, u, family).t.sessions[issue.id] == row;
  }

  lemma PendingLoginInserts(s: System, rid: RequestId, d: Draw, u: Id)
    requires Covered(s.t, s.used) && u in s.t.subjects && GoodDraw(s, d)
    requires rid in s.requests && IsPendingLogin(s.requests[rid], u)
    ensures HasLiveSession(AfterCall(s, rid, d), u)
  {
    FreshInsertCommits(s.t, s.used, s.now, IssueOf(d, s.cfg, s.requests[rid].client), u, d.family);
    AfterCallTables(s, rid, d);
  }

  /** An inactive user without live sessions can come to have one again exactly when a login of
      that user is pending. */
  lemma InactiveUserRegainsSessionExactly(s: System, d: Draw, u: Id)
    requires Reachable(s) && Inactive(s, u) && !HasLiveSession(s, u) && GoodDraw(s, d)
    ensures (exists s' :: Leads(s, s') && HasLiveSession(s', u)) <==> LoginPending(s, u)
  {
    ReachableInvariant(s);
    if LoginPending(s, u) {
      var rid :| rid in s.requests && IsPendingLogin(s.requests[rid], u);
      PendingLoginInserts(s, rid, d, u);
      OneEventLeads(s, Call(rid, d));
    } else if s' :| Leads(s, s') && HasLiveSession(s', u) {
      var run :| Steps(run) && run.states[0] == s && run.states[|run.states| - 1] == s';
      StepsKeepQuiet(run, |run.states| - 1, u);
    }
  }

  // ---- Serial runs ----

  /** At most one request is in flight at any time. */
  predicate SerialState(s: System)
  {
    forall a, b | a in s.requests && b in s.requests :: a == b
  }

  ghost predicate AllInactiveQuiet(s: System)
  {
    forall u | Inactive(s, u) :: Quiet(s, u)
  }

  lemma SerialCallKeepsQuiet(s: System, rid: RequestId, d: Draw, u: Id)
    requires Invariant(s) && rid in s.requests && SerialState(s) && AllInactiveQuiet(s)
    requires Inactive(AfterCall(s, rid, d), u)
    ensures Quiet(AfterCall(s, rid, d), u)
  {
    if Inactive(s, u) {
      assert Quiet(s, u);
      CallKeepsQuiet(s, rid, d, u);
    } else {
      AfterCallTables(s, rid, d);
      OnlyDeactivationDeactivates(s.t, s.now, NextCall(s.requests[rid], d, s.cfg), u);
      DeactivationRevokesAll(s.t, s.now, u);
      DeactivatingRequestIsLast(s, rid, d, u);
    }
  }

  /** The request that deactivates the user is the only one, and it is finished. */
  lemma DeactivatingRequestIsLast(s: System, rid: RequestId, d: Draw, u: Id)
    requires rid in s.requests && SerialState(s) && NextCall(s.requests[rid], d, s.cfg) == CallDeactivateUser(u)
    ensures !LoginPending(AfterCall(s, rid, d), u)
  {
    assert s.requests[rid] == Ready(s.requests[rid].tok, DeleteUser);
  }

  lemma OnlyDeactivationDeactivates(t: Tables, now: Time, call: DbCall, u: Id)
    requires Sound(t, now)
    requires u in Apply(t, now, call).t.users && !Apply(t, now, call).t.users[u].active
    requires u !in t.users || t.users[u].active
    ensures call == CallDeactivateUser(u) && DeactivateUser(t, now, u).reply.Done?
  {
    if !WritesUsers(call) {
      OtherCallsKeepUsers(t, now, call);
    }
  }

  /** With one request at a time, no inactive user ever has a live session. */
  lemma {:induction false} SerialRunsLeaveNoSession(run: Run, n: nat)
    requires IsRun(run) && n < |run.states|
    requires forall i | 0 <= i < n :: SerialState(run.states[i])
    ensures AllInactiveQuiet(run.states[n])
  {
    if n > 0 {
      SerialRunsLeaveNoSession(run, n - 1);
      RunKeepsInvariant(run, n - 1);
      assert StepAt(run, n - 1);
      SerialNextKeepsQuiet(run.states[n - 1], run.events[n - 1]);
    }
  }

  lemma SerialNextKeepsQuiet(s: System, e: Event)
    requires Invariant(s) && Enabled(s, e) && SerialState(s) && AllInactiveQuiet(s)
    ensures AllInactiveQuiet(Next(s, e))
  {
    forall u | Inactive(Next(s, e), u) ensures Quiet(Next(s, e), u) {
      if e.Call? {
        SerialCallKeepsQuiet(s, e.rid, e.draw, u);
      } else {
        assert Inactive(s, u);
        NextKeepsQuiet(s, e, u);
      }
    }
  }
}
