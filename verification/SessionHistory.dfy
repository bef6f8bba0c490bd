/** How the auth_sessions table moves: every database call makes one of four changes to it,
    rows only ever evolve forwards, and each family is one chain of replacements. */
module SessionHistory {
  import opened Outcomes
  import opened Schema
  import opened SessionSql
  import opened MembershipSql
  import opened Requests

  /** The application keeps the two revocation columns together, and fills replaced_by for
      rotated rows only. */
  predicate RowShape(r: Session)
  {
    && (r.revokedAt.Some? <==> r.reason.Some?)
    && (r.replacedBy.Some? <==> r.reason == Some(Reason.Rotated))
  }

  ghost predicate SessionShape(ss: map<Id, Session>)
  {
    forall i | i in ss :: RowShape(ss[i])
  }

  // ---- The four changes ----

  datatype SessionChange =
    | Unchanged
    | Revoked(ids: set<Id>, reason: Reason)
    | Opened(id: Id, row: Session)
    | Replaced(id: Id, issue: Issue)

  ghost function ChangeOf(t: Tables, now: Time, call: DbCall): SessionChange
  {
    match call
    case CallDeactivateUser(id) =>
      if ActiveUser(t, id) then Revoked(SubjectSessions(t.sessions, id), UserDeactivated) else Unchanged
    case CallCreateAuthSession(issue, subject, family) =>
      var row := NewSession(subject, family, issue, now);
      if Insertable(t.sessions, issue.id, row) && subject in t.subjects then Opened(issue.id, row) else Unchanged
    case CallRefreshAuthSession(oldHash, issue) =>
      (match RefreshCaseOf(t, now, oldHash, issue)
       case Reused(id) => Revoked(FamilySessions(t.sessions, t.sessions[id].family), ReuseDetected)
       case Stale(id) => Revoked({id}, Expired)
       case Rotates(id) => Replaced(id, issue)
       case _ => Unchanged)
    case CallRevokeAuthSession(id, subject) =>
      if id in t.sessions && t.sessions[id].subject == subject then Revoked({id}, LoggedOut) else Unchanged
    case CallRevokeAllAuthSessions(subject) => Revoked(SubjectSessions(t.sessions, subject), LoggedOut)
    case _ => Unchanged
  }

  function Changed(ss: map<Id, Session>, now: Time, c: SessionChange): map<Id, Session>
    requires c.Replaced? ==> c.id in ss
  {
    match c
    case Unchanged => ss
    case Revoked(ids, reason) => RevokeLive(ss, ids, now, reason)
    case Opened(id, row) => ss[id := row]
    case Replaced(id, issue) => Rotate(ss, id, issue, now)
  }

  /** A row as the INSERTs write it. */
  predicate IsNew(row: Session, now: Time)
  {
    row.createdAt == now && row.revokedAt.None? && row.reason.None? && row.replacedBy.None?
  }

  /** What is known of a change before it is made. */
  ghost predicate ChangeFits(ss: map<Id, Session>, now: Time, c: SessionChange)
  {
    match c
    case Unchanged => true
    case Revoked(_, reason) => reason != Reason.Rotated
    case Opened(id, row) => Insertable(ss, id, row) && IsNew(row, now)
    case Replaced(id, issue) =>
      id in ss && ss[id].Live() && now < ss[id].expiresAt && Renewable(ss, now, issue)
  }

  /** Subjects of sessions are users, so the cascades of an organization reach no session. */
  ghost predicate SubjectsAreUsers(ss: map<Id, Session>, subjects: map<Id, Kind>)
  {
    forall i | i in ss :: ss[i].subject in subjects && subjects[ss[i].subject] == UserKind
  }

  lemma CascadeReachesNoSession(t: Tables, org: Id)
    requires SubjectsAreUsers(t.sessions, t.subjects)
    requires org in t.subjects && t.subjects[org] == OrganizationKind
    ensures DeleteSubject(t, org).sessions == t.sessions
  {}

  lemma LogoutIsRevocation(t: Tables, now: Time, id: Id, subject: Id)
    requires SessionShape(t.sessions) && id in t.sessions && t.sessions[id].subject == subject
    ensures RevokeAuthSession(t, now, id, subject, LoggedOut, None).t.sessions
         == RevokeLive(t.sessions, {id}, now, LoggedOut)
  {
    assert RowShape(t.sessions[id]);
  }

  /** Calls that write no table but auth_sessions. */
  predicate TouchesOnlySessions(call: DbCall)
  {
    || call.CallCreateAuthSession? || call.CallRefreshAuthSession?
    || call.CallRevokeAuthSession? || call.CallRevokeAllAuthSessions?
    || call.CallGetUserByLogin? || call.CallGetUserById? || call.CallGetAuthSession?
    || call.CallListOrganizationMembers? || call.CallGetOrganizationMember?
  }

  lemma SessionCallMakesItsChange(t: Tables, now: Time, call: DbCall)
    requires SessionShape(t.sessions) && TouchesOnlySessions(call)
    ensures ChangeFits(t.sessions, now, ChangeOf(t, now, call))
    ensures Apply(t, now, call).t == t.(sessions := Changed(t.sessions, now, ChangeOf(t, now, call)))
  {
    match call
    case CallRevokeAuthSession(id, subject) =>
      if id in t.sessions && t.sessions[id].subject == subject {
        LogoutIsRevocation(t, now, id, subject);
      }
    case _ =>
  }

  /** Every database call changes the session table exactly as `ChangeOf` says. */
  lemma CallMakesItsChange(t: Tables, now: Time, call: DbCall)
    requires SessionShape(t.sessions) && SubjectsAreUsers(t.sessions, t.subjects)
    ensures ChangeFits(t.sessions, now, ChangeOf(t, now, call))
    ensures Apply(t, now, call).t.sessions == Changed(t.sessions, now, ChangeOf(t, now, call))
    ensures TouchesOnlySessions(call) ==>
      Apply(t, now, call).t == t.(sessions := Changed(t.sessions, now, ChangeOf(t, now, call)))
  {
    if TouchesOnlySessions(call) {
      SessionCallMakesItsChange(t, now, call);
    } else if call.CallDeleteOrganization? && call.org in t.subjects && t.subjects[call.org] == OrganizationKind {
      CascadeReachesNoSession(t, call.org);
    }
  }

  // ---- Rows evolve forwards ----

  /** Identity never changes; a revocation, once written, stays as written; replaced_by goes
      from NULL to one value at most. */
  predicate RowEvolves(a: Session, b: Session)
  {
    && b.subject == a.subject && b.family == a.family && b.hash == a.hash
    && b.createdAt == a.createdAt && b.expiresAt == a.expiresAt
    && (a.revokedAt.Some? ==> b.revokedAt == a.revokedAt)
    && (a.reason.Some? ==> b.reason == a.reason)
    && (a.replacedBy.Some? ==> b.replacedBy == a.replacedBy)
    && (a.revokedAt.Some? ==> b.replacedBy == a.replacedBy)
  }

  ghost predicate Evolves(a: map<Id, Session>, b: map<Id, Session>)
  {
    forall i | i in a :: i in b && RowEvolves(a[i], b[i])
  }

  lemma ChangeEvolves(ss: map<Id, Session>, now: Time, c: SessionChange)
    requires ChangeFits(ss, now, c) && SessionShape(ss)
    ensures Evolves(ss, Changed(ss, now, c)) && SessionShape(Changed(ss, now, c))
  {}

  lemma EvolvesTransitive(a: map<Id, Session>, b: map<Id, Session>, c: map<Id, Session>)
    requires Evolves(a, b) && Evolves(b, c)
    ensures Evolves(a, c)
  {
    forall i | i in a ensures i in c && RowEvolves(a[i], c[i]) {
      assert RowEvolves(a[i], b[i]) && RowEvolves(b[i], c[i]);
    }
  }

  // ---- Families are chains ----

  /** The ids of one family in order of creation: each row is replaced by the next, all but the
      last are revoked as rotated, the last is replaced by none, all have one subject. */
  ghost predicate IsChain(ss: map<Id, Session>, family: Id, c: seq<Id>)
  {
    && |c| >= 1
    && (forall k | 0 <= k < |c| :: c[k] in ss && ss[c[k]].family == family)
    && (forall k | 0 <= k < |c| :: ss[c[k]].subject == ss[c[0]].subject)
    && (forall k | 0 <= k < |c| - 1 :: ss[c[k]].reason == Some(Reason.Rotated) && ss[c[k]].revokedAt.Some?)
    && (forall j, k | 0 <= j < |c| && 0 <= k < |c| && k == j + 1 :: ss[c[j]].replacedBy == Some(c[k]))
    && ss[c[|c| - 1]].replacedBy.None? && ss[c[|c| - 1]].reason != Some(Reason.Rotated)
    && (forall j, k | 0 <= j < k < |c| :: c[j] != c[k] && ss[c[j]].createdAt <= ss[c[k]].createdAt)
  }

  type Chains = map<Id, seq<Id>>

  predicate InItsChain(ss: map<Id, Session>, chains: Chains, i: Id)
    requires i in ss
  {
    ss[i].family in chains && i in chains[ss[i].family]
  }

  /** Each family of the table is one chain, and the chain has all of its rows. */
  ghost predicate FamiliesAreChains(ss: map<Id, Session>, chains: Chains)
  {
    && (forall f {:trigger IsChain(ss, f, chains[f])} | f in chains :: IsChain(ss, f, chains[f]))
    && (forall i {:trigger InItsChain(ss, chains, i)} | i in ss :: InItsChain(ss, chains, i))
  }

  function ExtendChains(ss: map<Id, Session>, chains: Chains, c: SessionChange): Chains
  {
    match c
    case Opened(id, row) => chains[row.family := [id]]
    case Replaced(id, issue) =>
      if id in ss && ss[id].family in chains
      then chains[ss[id].family := chains[ss[id].family] + [issue.id]] else chains
    case _ => chains
  }

  lemma RevokedKeepsChain(ss: map<Id, Session>, family: Id, c: seq<Id>, ids: set<Id>, now: Time, reason: Reason)
    requires IsChain(ss, family, c) && reason != Reason.Rotated
    ensures IsChain(RevokeLive(ss, ids, now, reason), family, c)
  {
    var ss' := RevokeLive(ss, ids, now, reason);
    assert forall i | i in ss :: i in ss' && ss'[i].(revokedAt := ss[i].revokedAt, reason := ss[i].reason) == ss[i];
  }

  /** Only the last row of a chain can be live. */
  lemma LiveIsLast(ss: map<Id, Session>, family: Id, c: seq<Id>, id: Id)
    requires IsChain(ss, family, c) && id in c && ss[id].Live()
    ensures id == c[|c| - 1]
  {}

  lemma ReplacedExtendsChain(ss: map<Id, Session>, c: seq<Id>, now: Time, id: Id, issue: Issue)
    requires id in c && issue.id !in ss && id in ss && ss[id].Live() && IsChain(ss, ss[id].family, c)
    requires SessionClock(ss, now)
    ensures IsChain(Rotate(ss, id, issue, now), ss[id].family, c + [issue.id])
  {
    LiveIsLast(ss, ss[id].family, c, id);
    var ss', c' := Rotate(ss, id, issue, now), c + [issue.id];
    assert forall k | 0 <= k < |c| - 1 :: ss'[c'[k]] == ss[c[k]];
    assert ss'[id].replacedBy == Some(issue.id) && ss'[issue.id].family == ss[id].family;
  }

  lemma UntouchedKeepsChain(ss: map<Id, Session>, ss': map<Id, Session>, family: Id, c: seq<Id>)
    requires IsChain(ss, family, c)
    requires forall i | i in ss && ss[i].family == family :: i in ss' && ss'[i] == ss[i]
    ensures IsChain(ss', family, c)
  {}

  lemma RevokedKeepsChains(ss: map<Id, Session>, chains: Chains, ids: set<Id>, now: Time, reason: Reason)
    requires FamiliesAreChains(ss, chains) && reason != Reason.Rotated
    ensures FamiliesAreChains(RevokeLive(ss, ids, now, reason), chains)
  {
    var ss' := RevokeLive(ss, ids, now, reason);
    forall f | f in chains ensures IsChain(ss', f, chains[f]) {
      RevokedKeepsChain(ss, f, chains[f], ids, now, reason);
    }
    forall i | i in ss' ensures InItsChain(ss', chains, i) {
      assert InItsChain(ss, chains, i);
    }
  }

  lemma OpenedStartsChain(ss: map<Id, Session>, chains: Chains, id: Id, row: Session)
    requires FamiliesAreChains(ss, chains) && id !in ss && row.family !in chains
    requires row.replacedBy.None? && row.reason.None?
    ensures FamiliesAreChains(ss[id := row], chains[row.family := [id]])
  {
    var ss', chains' := ss[id := row], chains[row.family := [id]];
    forall f | f in chains' ensures IsChain(ss', f, chains'[f]) {
      if f == row.family {
        assert ss'[id].family == f;
      } else {
        UntouchedKeepsChain(ss, ss', f, chains[f]);
      }
    }
    forall i | i in ss' ensures InItsChain(ss', chains', i) {
      if i != id {
        assert InItsChain(ss, chains, i);
      }
    }
  }

  lemma RotatedIsElsewhereUntouched(ss: map<Id, Session>, id: Id, issue: Issue, now: Time, family: Id)
    requires id in ss && issue.id !in ss && family != ss[id].family
    ensures forall i | i in ss && ss[i].family == family ::
      i in Rotate(ss, id, issue, now) && Rotate(ss, id, issue, now)[i] == ss[i]
  {}

  lemma ReplacedExtendsItsChain(ss: map<Id, Session>, chains: Chains, now: Time, id: Id, issue: Issue)
    requires FamiliesAreChains(ss, chains)
    requires id in ss && ss[id].Live() && issue.id !in ss
    requires SessionClock(ss, now)
    ensures var f := ss[id].family;
            f in chains && FamiliesAreChains(Rotate(ss, id, issue, now), chains[f := chains[f] + [issue.id]])
  {
    var family := ss[id].family;
    assert InItsChain(ss, chains, id);
    var ss', chains' := Rotate(ss, id, issue, now), chains[family := chains[family] + [issue.id]];
    forall f | f in chains' ensures IsChain(ss', f, chains'[f]) {
      if f == family {
        ReplacedExtendsChain(ss, chains[f], now, id, issue);
      } else {
        RotatedIsElsewhereUntouched(ss, id, issue, now, f);
        UntouchedKeepsChain(ss, ss', f, chains[f]);
      }
    }
    forall i | i in ss' ensures InItsChain(ss', chains', i) {
      if i == issue.id {
        assert chains'[family][|chains[family]|] == issue.id;
      } else {
        assert InItsChain(ss, chains, i) && ss'[i].family == ss[i].family;
      }
    }
  }

  /** Every change takes a table of chains to a table of chains. Only opening a session needs a
      family that was not in use. */
  lemma ChangeKeepsChains(ss: map<Id, Session>, chains: Chains, now: Time, c: SessionChange)
    requires FamiliesAreChains(ss, chains) && ChangeFits(ss, now, c)
    requires SessionClock(ss, now)
    requires c.Opened? ==> c.row.family !in chains
    ensures FamiliesAreChains(Changed(ss, now, c), ExtendChains(ss, chains, c))
  {
    match c
    case Unchanged =>
    case Revoked(ids, reason) => RevokedKeepsChains(ss, chains, ids, now, reason);
    case Opened(id, row) => OpenedStartsChain(ss, chains, id, row);
    case Replaced(id, issue) => ReplacedExtendsItsChain(ss, chains, now, id, issue);
  }

  // ---- Dead families ----

  ghost predicate Dead(ss: map<Id, Session>, family: Id)
  {
    forall i | i in ss && ss[i].family == family :: !ss[i].Live()
  }

  /** No change brings a live session to a dead family, unless it opens a session in it. */
  lemma DeadStaysDead(ss: map<Id, Session>, now: Time, c: SessionChange, family: Id)
    requires Dead(ss, family) && ChangeFits(ss, now, c)
    requires c.Opened? ==> c.row.family != family
    ensures Dead(Changed(ss, now, c), family)
  {}
}
