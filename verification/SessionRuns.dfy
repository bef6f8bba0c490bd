/** The refresh protocol over whole runs. */
module SessionRuns {
  import opened Outcomes
  import opened Credentials
  import opened Schema
  import opened SessionSql
  import opened Requests
  import opened Machine
  import opened SessionHistory
  import opened Integrity
  import opened Invariants
  import opened Effects

  // ---- One refresh call ----

  /** Exactly the live rows of the family of the row with this hash become revoked. */
  ghost predicate CommitsReuse(ss: map<Id, Session>, ss': map<Id, Session>, hash: TokenHash, now: Time)
  {
    ss'.Keys == ss.Keys &&
    exists id ::
      id in ss && ss[id].hash == hash && !ss[id].Live() &&
      forall i | i in ss :: ss'[i] ==
        if ss[i].family == ss[id].family && ss[i].Live() then Revoke(ss[i], now, ReuseDetected) else ss[i]
  }

  /** Exactly the expired row with this hash becomes revoked. */
  ghost predicate CommitsExpiry(ss: map<Id, Session>, ss': map<Id, Session>, hash: TokenHash, now: Time)
  {
    exists id ::
      id in ss && ss[id].hash == hash && ss[id].Live() && ss[id].expiresAt <= now &&
      ss' == ss[id := Revoke(ss[id], now, Expired)]
  }

  /** Exactly the row with this hash is revoked and linked to one new row of its family. */
  ghost predicate CommitsRotation(ss: map<Id, Session>, ss': map<Id, Session>, hash: TokenHash,
                                  issue: Issue, now: Time)
  {
    issue.id !in ss &&
    exists id ::
      id in ss && ss[id].hash == hash && ss[id].Live() && now < ss[id].expiresAt &&
      ss' == ss[id := ss[id].(revokedAt := Some(now), reason := Some(Reason.Rotated), replacedBy := Some(issue.id))]
               [issue.id := Session(ss[id].subject, ss[id].family, issue.hash, StoredClient(issue.client),
                                    now, issue.expiresAt, None, None, None)]
  }

  /** The rows with this hash. */
  function RowsOf(ss: map<Id, Session>, hash: TokenHash): set<Id>
  {
    set i | i in ss && ss[i].hash == hash
  }

  /** The answer by those rows: not found without any, reuse if all are revoked, expiry if all are
      unrevoked and past their time. */
  ghost predicate AnswersByRows(ss: map<Id, Session>, rows: set<Id>, now: Time, reply: Reply)
    requires rows <= ss.Keys
  {
    && (reply == Failed(TokenNotFound) <==> rows == {})
    && (rows != {} && (forall i | i in rows :: ss[i].revokedAt.Some?) ==> reply == Failed(TokenReuseDetected))
    && (rows != {} && (forall i | i in rows :: ss[i].revokedAt.None? && ss[i].expiresAt <= now) ==>
          reply == Failed(TokenExpired))
  }

  lemma RefreshAnswersByRows(t: Tables, now: Time, oldHash: TokenHash, issue: Issue)
    ensures var reply := RefreshAuthSession(t, now, oldHash, issue).reply;
            AnswersByRows(t.sessions, RowsOf(t.sessions, oldHash), now, reply)
  {
    var rows := RowsOf(t.sessions, oldHash);
    if HashKnown(t.sessions, oldHash) {
      assert SessionOfHash(t.sessions, oldHash) in rows;
    }
  }

  /** What is committed with a reply. */
  ghost predicate Commits(t: Tables, e: Effect, oldHash: TokenHash, issue: Issue, now: Time)
  {
    var ss, ss' := t.sessions, e.t.sessions;
    && e.t == t.(sessions := ss')
    && match e.reply
       case Failed(TokenReuseDetected) => CommitsReuse(ss, ss', oldHash, now)
       case Failed(TokenExpired) => CommitsExpiry(ss, ss', oldHash, now)
       case Failed(_) => ss' == ss
       case SessionReply(id, row) =>
         id == issue.id && CommitsRotation(ss, ss', oldHash, issue, now) && ss'[issue.id] == row
       case _ => false
  }

  lemma RefreshCommits(t: Tables, now: Time, oldHash: TokenHash, issue: Issue)
    ensures Commits(t, RefreshAuthSession(t, now, oldHash, issue), oldHash, issue, now)
  {
    var ss, ss' := t.sessions, RefreshAuthSession(t, now, oldHash, issue).t.sessions;
    match RefreshCaseOf(t, now, oldHash, issue)
    case Reused(id) => assert ss[id].hash == oldHash && !ss[id].Live();
    case Stale(id) => assert ss[id].hash == oldHash && ss' == ss[id := Revoke(ss[id], now, Expired)];
    case Rotates(id) => RotationCommits(ss, id, issue, now);
    case _ =>
  }

  lemma RotationCommits(ss: map<Id, Session>, id: Id, issue: Issue, now: Time)
    requires id in ss && ss[id].Live() && now < ss[id].expiresAt && issue.id !in ss
    ensures CommitsRotation(ss, Rotate(ss, id, issue, now), ss[id].hash, issue, now)
  {}

  /** What a refresh answers and commits: nothing for an unknown token, an inactive user or a row that
      cannot be inserted, and exactly the stated rows otherwise. */
  lemma RefreshIsAllOrNothing(t: Tables, now: Time, oldHash: TokenHash, issue: Issue)
    ensures var e := RefreshAuthSession(t, now, oldHash, issue);
            && AnswersByRows(t.sessions, RowsOf(t.sessions, oldHash), now, e.reply)
            && Commits(t, e, oldHash, issue, now)
  {
    RefreshAnswersByRows(t, now, oldHash, issue);
    RefreshCommits(t, now, oldHash, issue);
  }

  /** In sound tables the unique index makes the row with a hash the one the refresh finds. */
  lemma HashOwner(ss: map<Id, Session>, id: Id)
    requires HashUnique(ss) && id in ss
    ensures HashKnown(ss, ss[id].hash) && SessionOfHash(ss, ss[id].hash) == id
  {}

  /** A refresh goes through exactly when the presented hash belongs to a live, unexpired session
      of an active user, the new identifier and hash are unused, and the new expiry lies ahead.
      So from any reachable state it then commits. */
  lemma RefreshSucceedsExactly(s: System, id: Id, issue: Issue)
    requires Reachable(s) && id in s.t.sessions
    ensures var row := s.t.sessions[id];
            RefreshAuthSession(s.t, s.now, row.hash, issue).reply.SessionReply? <==>
            && row.Live() && s.now < row.expiresAt && ActiveUser(s.t, row.subject)
            && issue.id !in s.t.sessions && !HashKnown(s.t.sessions, issue.hash)
            && s.now < issue.expiresAt && Storable(issue.client)
  {
    ReachableInvariant(s);
    HashOwner(s.t.sessions, id);
  }

  /** From any reachable state: the answer to the token of a stored session is reuse exactly if its
      row is revoked, expiry exactly if it is unrevoked and past its time, and no user exactly if it
      is neither and its user inactive; the answer to any other token is not found. */
  lemma RefreshAnswersExactly(s: System, hash: TokenHash, issue: Issue)
    requires Reachable(s)
    ensures var reply := RefreshAuthSession(s.t, s.now, hash, issue).reply;
            && (reply == Failed(TokenNotFound) <==> forall i | i in s.t.sessions :: s.t.sessions[i].hash != hash)
            && forall id | id in s.t.sessions && s.t.sessions[id].hash == hash ::
                 var row := s.t.sessions[id];
                 && (reply == Failed(TokenReuseDetected) <==> row.revokedAt.Some?)
                 && (reply == Failed(TokenExpired) <==> row.revokedAt.None? && row.expiresAt <= s.now)
                 && (reply == Failed(UserNotFound) <==>
                       row.revokedAt.None? && s.now < row.expiresAt
                       && !(row.subject in s.t.users && s.t.users[row.subject].active))
  {
    ReachableInvariant(s);
    SoundSubjects(s.t);
    if id :| id in s.t.sessions && s.t.sessions[id].hash == hash {
      RefreshAnswers(s.t, s.now, id, issue);
    } else {
      UnknownTokenIsNotFound(s.t, s.now, hash, issue);
    }
  }

  /** What the client columns take: an address PostgreSQL reads, and no user agent or one that is
      text of at most 1024 characters, not counting spaces at its end. */
  lemma StorableExactly(c: Client)
    ensures Storable(c) <==>
            && c.host.Inet?
            && match c.agent
               case NoAgent => true
               case NotUtf8 => false
               case Agent(s) => IsText(s) && forall i | AGENT_WIDTH <= i < |s| :: s[i] == ' '
  {}

  /** With a client the columns do not take, a refresh that everything else is right for fails and
      leaves all tables as they were. */
  lemma UnstorableClientBlocksRefresh(s: System, id: Id, issue: Issue)
    requires Reachable(s) && id in s.t.sessions && !Storable(issue.client)
    requires s.t.sessions[id].Live() && s.now < s.t.sessions[id].expiresAt && ActiveUser(s.t, s.t.sessions[id].subject)
    ensures RefreshAuthSession(s.t, s.now, s.t.sessions[id].hash, issue) == Effect(s.t, Failed(QueryError))
  {
    ReachableInvariant(s);
    HashOwner(s.t.sessions, id);
  }

  // ---- Runs ----

  /** Event i is the database call of a refresh that presents the token with this hash. */
  ghost predicate IsRefresh(run: Run, i: nat, hash: TokenHash)
    requires WellFormed(run) && i < |run.events|
  {
    && CallsAt(run, i)
    && var r := run.states[i].requests[run.events[i].rid];
       r.Refreshing? && PresentedHash(r.cookie) == hash
  }

  /** What the refresh transaction answers at event i. */
  ghost function RefreshReplyAt(run: Run, i: nat, hash: TokenHash): Reply
    requires WellFormed(run) && i < |run.events| && IsRefresh(run, i, hash)
  {
    var s := run.states[i];
    var client := s.requests[run.events[i].rid].client;
    RefreshAuthSession(s.t, s.now, hash, IssueOf(run.events[i].draw, s.cfg, client)).reply
  }

  /** Event i redeems the refresh token with this hash for a new session. */
  ghost predicate Redeems(run: Run, i: nat, hash: TokenHash)
    requires WellFormed(run) && i < |run.events|
  {
    IsRefresh(run, i, hash) && RefreshReplyAt(run, i, hash).SessionReply?
  }

  ghost predicate TokenOf(ss: map<Id, Session>, hash: TokenHash, family: Id)
  {
    exists id :: id in ss && ss[id].hash == hash && ss[id].family == family
  }

  ghost function ChangeAt(run: Run, i: nat): SessionChange
    requires Steps(run) && i < |run.events|
  {
    if CallsAt(run, i) then ChangeOf(run.states[i].t, run.states[i].now, CallAt(run, i)) else Unchanged
  }

  lemma StepMakesItsChange(run: Run, i: nat)
    requires IsRun(run) && i < |run.events|
    ensures SessionClock(run.states[i].t.sessions, run.states[i].now) && HashUnique(run.states[i].t.sessions)
    ensures Covered(run.states[i].t, run.states[i].used)
    ensures ChangeFits(run.states[i].t.sessions, run.states[i].now, ChangeAt(run, i))
    ensures run.states[i + 1].t.sessions == Changed(run.states[i].t.sessions, run.states[i].now, ChangeAt(run, i))
    ensures ChangeAt(run, i).Opened? ==> ChangeAt(run, i).row.family !in run.states[i].used
  {
    var s := run.states[i];
    RunKeepsInvariant(run, i);
    assert StepAt(run, i);
    if CallsAt(run, i) {
      SoundSubjects(s.t);
      CallMakesItsChange(s.t, s.now, CallAt(run, i));
      AfterCallTables(s, run.events[i].rid, run.events[i].draw);
      OpensUnderDrawnFamily(s, run.events[i]);
    }
  }

  lemma OpensUnderDrawnFamily(s: System, e: Event)
    requires Enabled(s, e) && e.Call?
    ensures var c := ChangeOf(s.t, s.now, CallOf(s, e)); c.Opened? ==> c.row.family !in s.used
  {}

  /** The change of a refresh event is that of its call. */
  lemma RefreshChangesSessions(run: Run, i: nat, hash: TokenHash)
    requires Steps(run) && i < |run.events| && IsRefresh(run, i, hash)
    ensures var s := run.states[i];
            var issue := IssueOf(run.events[i].draw, s.cfg, s.requests[run.events[i].rid].client);
            ChangeAt(run, i) == ChangeOf(s.t, s.now, CallRefreshAuthSession(hash, issue))
  {}

  /** A successful refresh is a replacement of a live session of the presented hash. */
  lemma RedeemingReplaces(run: Run, i: nat, hash: TokenHash)
    requires Steps(run) && i < |run.events| && Redeems(run, i, hash)
    ensures var c, ss := ChangeAt(run, i), run.states[i].t.sessions;
            && c.Replaced? && c.id in ss && ss[c.id].hash == hash && ss[c.id].Live()
            && ActiveUser(run.states[i].t, ss[c.id].subject)
  {
    RefreshChangesSessions(run, i, hash);
  }

  /** And every replacement is a successful refresh. */
  lemma ReplacingRedeems(run: Run, i: nat)
    requires Steps(run) && i < |run.events| && ChangeAt(run, i).Replaced?
    ensures var c, ss := ChangeAt(run, i), run.states[i].t.sessions;
            c.id in ss && Redeems(run, i, ss[c.id].hash)
  {
    var hash := ReplacedPresented(run, i);
    RefreshChangesSessions(run, i, hash);
  }

  lemma ReplacedPresented(run: Run, i: nat) returns (hash: TokenHash)
    requires Steps(run) && i < |run.events| && ChangeAt(run, i).Replaced?
    ensures IsRefresh(run, i, hash)
  {
    hash := PresentedHash(run.states[i].requests[run.events[i].rid].cookie);
  }

  // ---- Families over runs ----

  /** The chains of a run: a login starts one, a successful refresh extends one. */
  ghost function ChainsAt(run: Run, n: nat): Chains
    requires Steps(run) && n < |run.states|
  {
    if n == 0 then map[] else ExtendChains(run.states[n - 1].t.sessions, ChainsAt(run, n - 1), ChangeAt(run, n - 1))
  }

  /** Event i redeems a token of the family. */
  ghost predicate RefreshesFamily(run: Run, i: nat, family: Id)
    requires WellFormed(run) && i < |run.events|
  {
    exists hash :: Redeems(run, i, hash) && TokenOf(run.states[i].t.sessions, hash, family)
  }

  /** How many refreshes of a family succeeded before state n. */
  ghost function Refreshes(run: Run, n: nat, family: Id): nat
    requires WellFormed(run) && n < |run.states|
  {
    if n == 0 then 0 else Refreshes(run, n - 1, family) + if RefreshesFamily(run, n - 1, family) then 1 else 0
  }

  /** The successful refreshes of a family are the replacements in it. */
  lemma RefreshesAreReplacements(run: Run, i: nat, family: Id)
    requires IsRun(run) && i < |run.events|
    ensures var c, ss := ChangeAt(run, i), run.states[i].t.sessions;
            RefreshesFamily(run, i, family) <==> c.Replaced? && c.id in ss && ss[c.id].family == family
  {
    var c, ss := ChangeAt(run, i), run.states[i].t.sessions;
    if RefreshesFamily(run, i, family) {
      var hash :| Redeems(run, i, hash) && TokenOf(ss, hash, family);
      RedeemingReplaces(run, i, hash);
      FamilyOfHash(run, i, c.id, family);
    }
    if c.Replaced? {
      ReplacingRedeems(run, i);
      assert TokenOf(ss, ss[c.id].hash, ss[c.id].family);
    }
  }

  lemma ChainFamiliesAreUsed(s: System, chains: Chains)
    requires Covered(s.t, s.used) && FamiliesAreChains(s.t.sessions, chains)
    ensures chains.Keys <= s.used
  {
    forall f | f in chains ensures f in s.used {
      assert IsChain(s.t.sessions, f, chains[f]);
      assert s.t.sessions[chains[f][0]].family == f;
    }
  }

  lemma StepKeepsChains(run: Run, n: nat, chains: Chains)
    requires IsRun(run) && 0 < n < |run.states| && FamiliesAreChains(run.states[n - 1].t.sessions, chains)
    ensures FamiliesAreChains(run.states[n].t.sessions,
                              ExtendChains(run.states[n - 1].t.sessions, chains, ChangeAt(run, n - 1)))
  {
    StepMakesItsChange(run, n - 1);
    ChainFamiliesAreUsed(run.states[n - 1], chains);
    ChangeKeepsChains(run.states[n - 1].t.sessions, chains, run.states[n - 1].now, ChangeAt(run, n - 1));
  }

  lemma {:induction false} RunKeepsChains(run: Run, n: nat)
    requires IsRun(run) && n < |run.states|
    ensures FamiliesAreChains(run.states[n].t.sessions, ChainsAt(run, n))
  {
    if n > 0 {
      RunKeepsChains(run, n - 1);
      StepKeepsChains(run, n, ChainsAt(run, n - 1));
    }
  }

  lemma ExtendLength(ss: map<Id, Session>, chains: Chains, c: SessionChange, family: Id)
    requires c.Opened? ==> c.row.family !in chains
    requires c.Replaced? ==> c.id in ss && ss[c.id].family in chains
    ensures var chains' := ExtendChains(ss, chains, c);
            var grows := c.Replaced? && ss[c.id].family == family;
            && (family in chains ==>
                  family in chains' && |chains'[family]| == |chains[family]| + if grows then 1 else 0)
            && (family !in chains ==> !grows && (family in chains' ==> |chains'[family]| == 1))
  {}

  lemma {:induction false} ChainLength(run: Run, n: nat, family: Id)
    requires IsRun(run) && n < |run.states|
    ensures family in ChainsAt(run, n) ==> |ChainsAt(run, n)[family]| == 1 + Refreshes(run, n, family)
    ensures family !in ChainsAt(run, n) ==> Refreshes(run, n, family) == 0
  {
    if n > 0 {
      ChainLength(run, n - 1, family);
      RefreshesAreReplacements(run, n - 1, family);
      OpensOutsideChains(run, n - 1);
      ExtendLength(run.states[n - 1].t.sessions, ChainsAt(run, n - 1), ChangeAt(run, n - 1), family);
    }
  }

  /** A change opens a session outside the families so far, or extends one of them. */
  lemma OpensOutsideChains(run: Run, n: nat)
    requires IsRun(run) && n < |run.events|
    ensures var c := ChangeAt(run, n);
            && (c.Opened? ==> c.row.family !in ChainsAt(run, n))
            && (c.Replaced? ==>
                  c.id in run.states[n].t.sessions && run.states[n].t.sessions[c.id].family in ChainsAt(run, n))
  {
    RunKeepsChains(run, n);
    StepMakesItsChange(run, n);
    ChainFamiliesAreUsed(run.states[n], ChainsAt(run, n));
    if ChangeAt(run, n).Replaced? {
      assert InItsChain(run.states[n].t.sessions, ChainsAt(run, n), ChangeAt(run, n).id);
    }
  }

  /** In every state of every run each family is one path: all its rows, once each, ordered by
      creation and linked by replaced_by, with one subject, as long as one plus the number of its
      successful refreshes. */
  lemma FamilyIsOnePath(run: Run, n: nat, family: Id) returns (path: seq<Id>)
    requires IsRun(run) && n < |run.states|
    requires FamilySessions(run.states[n].t.sessions, family) != {}
    ensures IsChain(run.states[n].t.sessions, family, path)
    ensures forall id :: id in path <==> id in FamilySessions(run.states[n].t.sessions, family)
    ensures |path| == 1 + Refreshes(run, n, family)
  {
    RunKeepsChains(run, n);
    ChainLength(run, n, family);
    var ss := run.states[n].t.sessions;
    var member :| member in FamilySessions(ss, family);
    assert InItsChain(ss, ChainsAt(run, n), member);
    path := ChainsAt(run, n)[family];
    forall id | id in FamilySessions(ss, family) ensures id in path {
      assert InItsChain(ss, ChainsAt(run, n), id);
    }
  }

  /** Once written, a revocation and its reason never change; they are written together; and
      replaced_by is set exactly for rotated sessions, once. */
  lemma RevocationIsWriteOnce(run: Run, i: nat, j: nat, id: Id)
    requires IsRun(run) && i <= j < |run.states| && id in run.states[i].t.sessions
    ensures id in run.states[j].t.sessions
    ensures var a, b := run.states[i].t.sessions[id], run.states[j].t.sessions[id];
            && (a.revokedAt.Some? <==> a.reason.Some?)
            && (a.replacedBy.Some? <==> a.reason == Some(Reason.Rotated))
            && (a.revokedAt.Some? ==>
                  b.revokedAt == a.revokedAt && b.reason == a.reason && b.replacedBy == a.replacedBy)
            && b.subject == a.subject && b.family == a.family && b.hash == a.hash && b.expiresAt == a.expiresAt
  {
    RunEvolves(run, i, j);
    RunKeepsInvariant(run, i);
    assert RowEvolves(run.states[i].t.sessions[id], run.states[j].t.sessions[id]);
    assert RowShape(run.states[i].t.sessions[id]);
  }

  // ---- Redemption ----

  lemma RedeemedIsRevoked(run: Run, i: nat, hash: TokenHash) returns (id: Id)
    requires IsRun(run) && i < |run.events| && Redeems(run, i, hash)
    ensures id in run.states[i].t.sessions && id in run.states[i + 1].t.sessions
    ensures run.states[i].t.sessions[id].hash == hash && run.states[i + 1].t.sessions[id].hash == hash
    ensures !run.states[i + 1].t.sessions[id].Live()
    ensures run.states[i + 1].t.sessions[id].family == run.states[i].t.sessions[id].family
  {
    RedeemingReplaces(run, i, hash);
    StepMakesItsChange(run, i);
    id := ChangeAt(run, i).id;
  }

  /** In any run a refresh token is redeemed at most once. */
  lemma RedeemedAtMostOnce(run: Run, i: nat, j: nat, hash: TokenHash)
    requires IsRun(run) && i < j < |run.events| && Redeems(run, i, hash)
    ensures !Redeems(run, j, hash)
  {
    var id := RedeemedIsRevoked(run, i, hash);
    RevocationIsWriteOnce(run, i + 1, j, id);
    RunKeepsInvariant(run, j);
    HashOwner(run.states[j].t.sessions, id);
    if Redeems(run, j, hash) {
      RedeemingReplaces(run, j, hash);
    }
  }

  // ---- Dead families ----

  lemma StepKeepsDead(run: Run, i: nat, family: Id)
    requires IsRun(run) && i < |run.events|
    requires family in run.states[i].used && Dead(run.states[i].t.sessions, family)
    ensures Dead(run.states[i + 1].t.sessions, family)
  {
    StepMakesItsChange(run, i);
    DeadStaysDead(run.states[i].t.sessions, run.states[i].now, ChangeAt(run, i), family);
  }

  /** A family with no live session never gains one, whatever ended it. */
  lemma {:induction false} DeadFamilyStaysDead(run: Run, i: nat, j: nat, family: Id)
    requires IsRun(run) && i <= j < |run.states|
    requires family in run.states[i].used && Dead(run.states[i].t.sessions, family)
    ensures Dead(run.states[j].t.sessions, family)
  {
    if i < j {
      DeadFamilyStaysDead(run, i, j - 1, family);
      RunGrows(run, i, j - 1);
      StepKeepsDead(run, j - 1, family);
    }
  }

  /** No token of a dead family is ever redeemed again. */
  lemma DeadFamilyRedeemsNothing(run: Run, i: nat, k: nat, family: Id, hash: TokenHash)
    requires IsRun(run) && i <= k < |run.events|
    requires family in run.states[i].used && Dead(run.states[i].t.sessions, family)
    requires TokenOf(run.states[k].t.sessions, hash, family)
    ensures !Redeems(run, k, hash)
  {
    DeadFamilyStaysDead(run, i, k, family);
    RunKeepsInvariant(run, k);
    var ss := run.states[k].t.sessions;
    var id :| id in ss && ss[id].hash == hash && ss[id].family == family;
    HashOwner(ss, id);
    if Redeems(run, k, hash) {
      RedeemingReplaces(run, k, hash);
    }
  }

  /** Presenting a token whose session is revoked kills its family. */
  lemma ReuseKillsFamily(run: Run, j: nat, id: Id, hash: TokenHash)
    requires IsRun(run) && j < |run.events| && IsRefresh(run, j, hash)
    requires id in run.states[j].t.sessions && !run.states[j].t.sessions[id].Live()
    requires run.states[j].t.sessions[id].hash == hash
    ensures RefreshReplyAt(run, j, hash) == Failed(TokenReuseDetected)
    ensures Dead(run.states[j + 1].t.sessions, run.states[j].t.sessions[id].family)
  {
    StepMakesItsChange(run, j);
    RefreshChangesSessions(run, j, hash);
    HashOwner(run.states[j].t.sessions, id);
  }

  /** Presenting the unrevoked token of a session past its time revokes that session as expired and
      leaves its family dead. */
  lemma ExpiryKillsFamily(run: Run, j: nat, id: Id, hash: TokenHash)
    requires IsRun(run) && j < |run.events| && IsRefresh(run, j, hash)
    requires id in run.states[j].t.sessions && run.states[j].t.sessions[id].hash == hash
    requires run.states[j].t.sessions[id].revokedAt.None? && run.states[j].t.sessions[id].expiresAt <= run.states[j].now
    ensures RefreshReplyAt(run, j, hash) == Failed(TokenExpired)
    ensures var ss, ss', now := run.states[j].t.sessions, run.states[j + 1].t.sessions, run.states[j].now;
            && ss' == ss[id := ss[id].(revokedAt := Some(now), reason := Some(Expired))]
            && Dead(ss', ss[id].family)
  {
    var s, e := run.states[j], run.events[j];
    RunKeepsInvariant(run, j);
    SoundSubjects(s.t);
    assert StepAt(run, j);
    var issue := IssueOf(e.draw, s.cfg, s.requests[e.rid].client);
    RefreshAnswers(s.t, s.now, id, issue);
    ExpiryRevokesRow(s.t, s.now, id, issue);
    RefreshCallAt(run, j, hash, issue);
  }

  /** The sessions after a refresh event are those of its transaction. */
  lemma RefreshCallAt(run: Run, j: nat, hash: TokenHash, issue: Issue)
    requires Steps(run) && j < |run.events| && IsRefresh(run, j, hash)
    requires issue == IssueOf(run.events[j].draw, run.states[j].cfg, run.states[j].requests[run.events[j].rid].client)
    ensures run.states[j + 1].t == RefreshAuthSession(run.states[j].t, run.states[j].now, hash, issue).t
  {
    assert StepAt(run, j);
    var s, e := run.states[j], run.events[j];
    AfterCallTables(s, e.rid, e.draw);
    RefreshCall(s.t, s.now, s.requests[e.rid], e.draw, s.cfg);
  }

  lemma RefreshCall(t: Tables, now: Time, r: Request, d: Draw, cfg: Config)
    requires r.Refreshing?
    ensures Apply(t, now, NextCall(r, d, cfg))
         == RefreshAuthSession(t, now, PresentedHash(r.cookie), IssueOf(d, cfg, r.client))
  {}

  /** Once a redeemed token is presented again, no token of its family is redeemed ever after,
      neither the replayed one nor any of its successors. */
  lemma ReplayEndsTheFamily(run: Run, i: nat, j: nat, k: nat, hash: TokenHash, family: Id, other: TokenHash)
    requires IsRun(run) && i < j < k < |run.events|
    requires Redeems(run, i, hash) && TokenOf(run.states[i].t.sessions, hash, family)
    requires IsRefresh(run, j, hash)
    requires TokenOf(run.states[k].t.sessions, other, family)
    ensures RefreshReplyAt(run, j, hash) == Failed(TokenReuseDetected) && !Redeems(run, k, other)
  {
    ReplayKillsFamily(run, i, j, hash, family);
    DeadFamilyRedeemsNothing(run, j + 1, k, family, other);
  }

  lemma ReplayKillsFamily(run: Run, i: nat, j: nat, hash: TokenHash, family: Id)
    requires IsRun(run) && i < j < |run.events|
    requires Redeems(run, i, hash) && TokenOf(run.states[i].t.sessions, hash, family)
    requires IsRefresh(run, j, hash)
    ensures RefreshReplyAt(run, j, hash) == Failed(TokenReuseDetected)
    ensures family in run.states[j + 1].used && Dead(run.states[j + 1].t.sessions, family)
  {
    var id := RedeemedStaysRevoked(run, i, j, hash, family);
    ReuseKillsFamily(run, j, id, hash);
    RunGrows(run, i, j + 1);
  }

  lemma RedeemedStaysRevoked(run: Run, i: nat, j: nat, hash: TokenHash, family: Id) returns (id: Id)
    requires IsRun(run) && i < j < |run.states|
    requires i < |run.events| && Redeems(run, i, hash) && TokenOf(run.states[i].t.sessions, hash, family)
    ensures family in run.states[i].used
    ensures var ss := run.states[j].t.sessions;
            id in ss && ss[id].hash == hash && ss[id].family == family && !ss[id].Live()
  {
    id := RedeemedIsRevoked(run, i, hash);
    FamilyOfHash(run, i, id, family);
    RevocationIsWriteOnce(run, i + 1, j, id);
  }

  /** The hash of a row determines its family, and the family was drawn. */
  lemma FamilyOfHash(run: Run, i: nat, id: Id, family: Id)
    requires IsRun(run) && i < |run.states|
    requires id in run.states[i].t.sessions
    requires TokenOf(run.states[i].t.sessions, run.states[i].t.sessions[id].hash, family)
    ensures run.states[i].t.sessions[id].family == family && family in run.states[i].used
  {
    RunKeepsInvariant(run, i);
  }

  // ---- How a session ends ----

  /** A revocation that ends a session ends its family: no other session of it is live. */
  lemma RevocationEndsFamily(ss: map<Id, Session>, now: Time, ids: set<Id>, id: Id, reason: Reason)
    requires FamilyActiveUnique(ss) && id in ss && id in ids && ss[id].Live()
    ensures Dead(RevokeLive(ss, ids, now, reason), ss[id].family)
  {
    var ss' := RevokeLive(ss, ids, now, reason);
    assert forall i | i in ss' && ss'[i].Live() :: ss[i].Live() && ss'[i].family == ss[i].family && i !in ids;
  }

  /** The event that ends a live session redeems its token or leaves its family dead. */
  lemma EndsRedeemedOrDead(run: Run, i: nat, id: Id)
    requires IsRun(run) && i < |run.events|
    requires id in run.states[i].t.sessions && run.states[i].t.sessions[id].Live()
    requires id in run.states[i + 1].t.sessions && !run.states[i + 1].t.sessions[id].Live()
    ensures var row := run.states[i].t.sessions[id];
            Redeems(run, i, row.hash) || Dead(run.states[i + 1].t.sessions, row.family)
  {
    var ss, now, c := run.states[i].t.sessions, run.states[i].now, ChangeAt(run, i);
    RunKeepsInvariant(run, i);
    StepMakesItsChange(run, i);
    match c
    case Revoked(ids, reason) => RevocationEndsFamily(ss, now, ids, id, reason);
    case Replaced(_, _) => ReplacingRedeems(run, i);
    case _ =>
  }

  /** A session that is live at one state and not at a later one was redeemed in between, unless
      its family is dead. */
  lemma {:induction false} RedeemedInBetween(run: Run, g: nat, r: nat, id: Id)
    requires IsRun(run) && g <= r < |run.states|
    requires id in run.states[g].t.sessions && run.states[g].t.sessions[id].Live()
    requires id in run.states[r].t.sessions && !run.states[r].t.sessions[id].Live()
    requires !Dead(run.states[r].t.sessions, run.states[g].t.sessions[id].family)
    ensures exists k :: g <= k < r && Redeems(run, k, run.states[g].t.sessions[id].hash)
  {
    var row := run.states[g].t.sessions[id];
    RevocationIsWriteOnce(run, g, r - 1, id);
    var last := run.states[r - 1].t.sessions[id];
    if last.Live() {
      EndsRedeemedOrDead(run, r - 1, id);
    } else {
      if Dead(run.states[r - 1].t.sessions, row.family) {
        FamilyIsDrawn(run, r - 1, id);
        StepKeepsDead(run, r - 1, row.family);
      }
      RedeemedInBetween(run, g, r - 1, id);
    }
  }

  lemma FamilyIsDrawn(run: Run, i: nat, id: Id)
    requires IsRun(run) && i < |run.states| && id in run.states[i].t.sessions
    ensures run.states[i].t.sessions[id].family in run.states[i].used
  {
    RunKeepsInvariant(run, i);
  }
}
