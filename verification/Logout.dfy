/** Logout, alone and among other requests. */
module Logout {
  import opened Schema
  import opened SessionSql
  import opened Requests
  import opened Machine
  import opened SessionHistory
  import opened Invariants
  import opened SessionRuns
  import opened Gate
  import opened Handlers
  import opened Auth

  /** Run alone, a logout succeeds exactly when the token's session is live, and then its family is
      dead; otherwise it is turned away at the gate and changes nothing. */
  lemma LogoutAlone(t: Tables, now: Time, cfg: Config, tok: AccessToken, d: Draw)
    requires SessionShape(t.sessions) && SessionSchema(t.sessions)
    ensures var solo := RunAlone(t, now, cfg, Request.Gate(tok, Logout), d);
            if IsLiveSession(t, now, tok.session, tok.subject) then
              solo.outcome == Accepted && tok.session in t.sessions
              && Dead(solo.t.sessions, t.sessions[tok.session].family)
            else solo == Solo(t, Rejected)
  {
    GateIsLiveSession(t, now, tok);
    if IsLiveSession(t, now, tok.session, tok.subject) {
      RevokingProgramsAreHandlers(t, now, cfg, tok, tok.session, d);
      RevocationEndsFamily(t.sessions, now, {tok.session}, tok.session, LoggedOut);
    }
  }

  // ---- In runs ----

  /** Event r is the revocation of a logout with this token. */
  ghost predicate LogsOutAt(run: Run, r: nat, rid: RequestId, tok: AccessToken)
    requires WellFormed(run) && r < |run.events|
  {
    CallsAt(run, r) && run.events[r].rid == rid && run.states[r].requests[rid] == Ready(tok, Logout)
  }

  /** A request in flight carries a token that names a session of its own subject. */
  lemma TokenInFlight(run: Run, r: nat, rid: RequestId)
    requires IsRun(run) && r < |run.states| && rid in run.states[r].requests && HasToken(run.states[r].requests[rid])
    ensures var tok, ss := run.states[r].requests[rid].tok, run.states[r].t.sessions;
            tok in run.states[r].tokens && tok.session in ss && ss[tok.session].subject == tok.subject
  {
    var s := run.states[r];
    RunKeepsInvariant(run, r);
    assert RequestBacked(s.t.users, s.tokens, s.requests[rid]) && TokenBacked(s.t.sessions, s.requests[rid].tok);
  }

  lemma LogoutCallRevokes(s: System, rid: RequestId, d: Draw, tok: AccessToken)
    requires rid in s.requests && s.requests[rid] == Ready(tok, Logout) && SessionShape(s.t.sessions)
    requires tok.session in s.t.sessions && s.t.sessions[tok.session].subject == tok.subject
    ensures AfterCall(s, rid, d).t.sessions == RevokeLive(s.t.sessions, {tok.session}, s.now, LoggedOut)
  {
    LogoutIsRevocation(s.t, s.now, tok.session, tok.subject);
    AfterCallTables(s, rid, d);
  }

  /** The revocation of a logout revokes the session of its token if it is live, and changes no
      session otherwise. */
  lemma LogoutRevokes(run: Run, r: nat, rid: RequestId, tok: AccessToken)
    requires IsRun(run) && r < |run.events| && LogsOutAt(run, r, rid, tok)
    ensures var ss := run.states[r].t.sessions;
            && tok in run.states[r].tokens
            && tok.session in ss && ss[tok.session].subject == tok.subject
            && run.states[r + 1].t.sessions == RevokeLive(ss, {tok.session}, run.states[r].now, LoggedOut)
  {
    TokenInFlight(run, r, rid);
    RunKeepsInvariant(run, r);
    assert StepAt(run, r);
    LogoutCallRevokes(run.states[r], rid, run.events[r].draw, tok);
  }

  lemma GatedSessionIsLive(run: Run, g: nat, rid: RequestId, tok: AccessToken, act: Act)
    requires IsRun(run) && g < |run.events| && PassesGateAt(run, g, rid, tok, act)
    ensures var ss := run.states[g].t.sessions; tok.session in ss && ss[tok.session].Live()
    ensures run.states[g + 1].t.sessions == run.states[g].t.sessions
  {
    var s, e := run.states[g], run.events[g];
    assert StepAt(run, g);
    PassedGateWasLive(s, rid, e.draw, tok, act);
    AfterCallTables(s, rid, e.draw);
  }

  /** A logout that passes the gate at event g and revokes at event r leaves the family of its
      session dead, unless that session is redeemed strictly in between and the family is still
      not dead when the revocation comes. */
  lemma LogoutEndsFamilyExactly(run: Run, g: nat, r: nat, rid: RequestId, tok: AccessToken)
    requires IsRun(run) && g < r < |run.events|
    requires PassesGateAt(run, g, rid, tok, Logout) && LogsOutAt(run, r, rid, tok)
    ensures tok.session in run.states[g].t.sessions
    ensures var row := run.states[g].t.sessions[tok.session];
            Dead(run.states[r + 1].t.sessions, row.family) <==>
            Dead(run.states[r].t.sessions, row.family) || !exists k :: g < k < r && Redeems(run, k, row.hash)
  {
    var id := tok.session;
    GatedSessionIsLive(run, g, rid, tok, Logout);
    RevocationIsWriteOnce(run, g, r, id);
    LogoutRevokes(run, r, rid, tok);
    if run.states[r].t.sessions[id].Live() {
      LiveWasNotRedeemed(run, g + 1, r, id);
      RunKeepsInvariant(run, r);
      RevocationEndsFamily(run.states[r].t.sessions, run.states[r].now, {id}, id, LoggedOut);
    } else {
      RevokedStays(run.states[r].t.sessions, id, run.states[r].now);
      if !Dead(run.states[r].t.sessions, run.states[g].t.sessions[id].family) {
        RedeemedInBetween(run, g + 1, r, id);
      }
    }
  }

  lemma RevokedStays(ss: map<Id, Session>, id: Id, now: Time)
    requires id in ss && !ss[id].Live()
    ensures RevokeLive(ss, {id}, now, LoggedOut) == ss
  {}

  /** A session that is still live has not been redeemed. */
  lemma LiveWasNotRedeemed(run: Run, g: nat, r: nat, id: Id)
    requires IsRun(run) && g <= r < |run.states|
    requires id in run.states[g].t.sessions && id in run.states[r].t.sessions && run.states[r].t.sessions[id].Live()
    ensures forall k | g <= k < r :: !Redeems(run, k, run.states[g].t.sessions[id].hash)
  {
    var hash := run.states[g].t.sessions[id].hash;
    forall k | g <= k < r ensures !Redeems(run, k, hash) {
      if Redeems(run, k, hash) {
        RevocationIsWriteOnce(run, g, k, id);
        var redeemed := RedeemedIsRevoked(run, k, hash);
        RunKeepsInvariant(run, k);
        RevocationIsWriteOnce(run, k + 1, r, id);
      }
    }
  }

  /** After the revocation of a logout the gate turns away every request with its token, another
      logout among them, in every later state. */
  lemma LogoutShutsOut(run: Run, r: nat, rid: RequestId, j: nat, later: RequestId, d: Draw, tok: AccessToken, act: Act)
    requires IsRun(run) && r < |run.events| && r < j < |run.states| && LogsOutAt(run, r, rid, tok)
    requires later in run.states[j].requests && run.states[j].requests[later] == Request.Gate(tok, act)
    ensures ProgressOf(run.states[j], later, d) == Finished(Rejected)
    ensures AfterCall(run.states[j], later, d).t == run.states[j].t
  {
    LogoutRevokes(run, r, rid, tok);
    RunGrows(run, r, r + 1);
    RunStatesAreReachable(run, r + 1);
    SignedTokenMatches(run.states[r + 1], tok);
    RejectionIsPermanent(run, r + 1, j, tok);
    RejectedAtGate(run.states[j], later, d, tok, act);
  }

  lemma RejectedAtGate(s: System, rid: RequestId, d: Draw, tok: AccessToken, act: Act)
    requires rid in s.requests && s.requests[rid] == Request.Gate(tok, act) && !Accepts(s.t, s.now, tok)
    ensures ProgressOf(s, rid, d) == Finished(Rejected) && AfterCall(s, rid, d).t == s.t
  {}
}
