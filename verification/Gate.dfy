/** The live-session gate of internal/transport/middlewares.go and the SQL predicate it stands for. */
module Gate {
  import opened Schema
  import opened SessionSql
  import opened Requests
  import opened Machine
  import opened SessionHistory
  import opened Invariants

  /** is_live_session of the schema: some row matches id, subject, revocation and expiry. */
  ghost predicate IsLiveSession(t: Tables, now: Time, sid: Id, subject: Id)
  {
    exists i :: i in t.sessions && i == sid && t.sessions[i].subject == subject
                && t.sessions[i].revokedAt.None? && t.sessions[i].expiresAt > now
  }

  /** The gate: read the row by id, then reject it if revoked or expired, then if it is not the
      subject's. */
  predicate Accepts(t: Tables, now: Time, tok: AccessToken)
  {
    var reply := GetAuthSession(t, tok.session).reply;
    reply.SessionReply? && GatePasses(reply.session, tok.subject, now)
  }

  /** The gate accepts exactly when the schema's predicate holds of the token's session and subject. */
  lemma GateIsLiveSession(t: Tables, now: Time, tok: AccessToken)
    ensures Accepts(t, now, tok) <==> IsLiveSession(t, now, tok.session, tok.subject)
  {
    if Accepts(t, now, tok) {
      assert tok.session in t.sessions && t.sessions[tok.session].subject == tok.subject;
    }
  }

  /** In a reachable state a signed token always finds its row, of its own subject: the gate's
      not-found and subject-mismatch branches are dead, and it rejects only revoked or expired
      sessions. */
  lemma SignedTokenMatches(s: System, tok: AccessToken)
    requires Reachable(s) && tok in s.tokens
    ensures tok.session in s.t.sessions && s.t.sessions[tok.session].subject == tok.subject
    ensures Accepts(s.t, s.now, tok) <==>
            s.t.sessions[tok.session].Live() && s.now < s.t.sessions[tok.session].expiresAt
  {
    ReachableInvariant(s);
    assert TokenBacked(s.t.sessions, tok);
  }

  /** Once the gate rejects a signed token it rejects it in every later state of the run. */
  lemma RejectionIsPermanent(run: Run, i: nat, j: nat, tok: AccessToken)
    requires IsRun(run) && i <= j < |run.states| && tok in run.states[i].tokens
    requires !Accepts(run.states[i].t, run.states[i].now, tok)
    ensures !Accepts(run.states[j].t, run.states[j].now, tok)
  {
    RunStatesAreReachable(run, i);
    SignedTokenMatches(run.states[i], tok);
    RunEvolves(run, i, j);
    RunGrows(run, i, j);
    assert RowEvolves(run.states[i].t.sessions[tok.session], run.states[j].t.sessions[tok.session]);
  }

  /** A request that comes past the gate held a session that was live at that moment. */
  lemma PassedGateWasLive(s: System, rid: RequestId, d: Draw, tok: AccessToken, act: Act)
    requires rid in s.requests && s.requests[rid] == Request.Gate(tok, act)
    requires rid in AfterCall(s, rid, d).requests
    ensures IsLiveSession(s.t, s.now, tok.session, tok.subject)
  {
    GateIsLiveSession(s.t, s.now, tok);
  }

  /** Event g lets request rid with this token and purpose past the gate. */
  ghost predicate PassesGateAt(run: Run, g: nat, rid: RequestId, tok: AccessToken, act: Act)
    requires WellFormed(run) && g < |run.events|
  {
    && CallsAt(run, g) && run.events[g].rid == rid
    && run.states[g].requests[rid] == Request.Gate(tok, act)
    && rid in run.states[g + 1].requests
  }

  /** At most one row per family among a subject's listed sessions. */
  lemma ListedOncePerFamily(t: Tables, now: Time, subject: Id)
    requires FamilyActiveUnique(t.sessions)
    ensures forall i, j | i in ListedSessions(t, now, subject) && j in ListedSessions(t, now, subject) ::
      t.sessions[i].family == t.sessions[j].family ==> i == j
  {}
}
