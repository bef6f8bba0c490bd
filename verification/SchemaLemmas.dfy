/** Which statements the constraints of the schema let through. */
module SchemaLemmas {
  import opened Outcomes
  import opened Schema
  import opened SessionSql
  import opened MembershipSql

  /** Revoking any set of live rows violates no constraint. */
  lemma RevokeLiveKeepsSchema(ss: map<Id, Session>, ids: set<Id>, now: Time, reason: Reason)
    requires SessionSchema(ss) && SessionClock(ss, now)
    ensures SessionSchema(RevokeLive(ss, ids, now, reason)) && SessionClock(RevokeLive(ss, ids, now, reason), now)
  {
    var ss' := RevokeLive(ss, ids, now, reason);
    assert forall i | i in ss' :: i in ss && ss'[i].(revokedAt := ss[i].revokedAt, reason := ss[i].reason) == ss[i];
    assert forall i | i in ss' && ss'[i].Live() :: ss[i].Live();
    assert FamilyActiveUnique(ss');
    assert HashUnique(ss');
    assert ReplacementExists(ss');
  }

  /** The INSERT of a fresh live row is refused exactly when `Insertable` fails. */
  lemma InsertKeepsSchema(ss: map<Id, Session>, id: Id, row: Session, now: Time)
    requires SessionSchema(ss) && SessionClock(ss, now) && id !in ss
    requires row.Live() && row.replacedBy.None? && row.createdAt <= now
    ensures Insertable(ss, id, row) <==> SessionSchema(ss[id := row])
    ensures SessionClock(ss[id := row], now)
  {
    var ss' := ss[id := row];
    if SessionSchema(ss') {
      forall i | i in ss ensures ss[i].hash != row.hash {
        assert ss'[i] == ss[i] && ss'[id] == row;
      }
      forall i | i in ss && ss[i].Live() ensures ss[i].family != row.family {
        assert ss'[i] == ss[i] && ss'[id] == row;
      }
      assert ss'[id] == row;
    }
  }

  /** Setting replaced_by on one row is refused exactly when it names no row or the row itself. */
  lemma BackfillKeepsSchema(ss: map<Id, Session>, id: Id, next: Id)
    requires SessionSchema(ss) && id in ss
    ensures SessionSchema(ss[id := ss[id].(replacedBy := Some(next))]) <==> next in ss && next != id
  {
    var ss' := ss[id := ss[id].(replacedBy := Some(next))];
    if SessionSchema(ss') {
      assert ss'[id].replacedBy.value in ss';
    }
    if next in ss && next != id {
      assert forall i | i in ss' :: ss'[i].(replacedBy := ss[i].replacedBy) == ss[i];
      assert FamilyActiveUnique(ss');
      assert HashUnique(ss');
      assert ReplacementExists(ss');
    }
  }

  // ---- The rotation transaction, statement by statement ----

  function AfterRevoke(ss: map<Id, Session>, id: Id, now: Time): map<Id, Session>
  {
    RevokeLive(ss, {id}, now, Reason.Rotated)
  }

  function AfterInsert(ss: map<Id, Session>, id: Id, issue: Issue, now: Time): map<Id, Session>
    requires id in ss
  {
    AfterRevoke(ss, id, now)[issue.id := Successor(ss[id], issue, now)]
  }

  function AfterBackfill(ss: map<Id, Session>, id: Id, issue: Issue, now: Time): map<Id, Session>
    requires id in ss
  {
    var ss' := AfterInsert(ss, id, issue, now);
    ss'[id := ss'[id].(replacedBy := Some(issue.id))]
  }

  /** The three statements together are the rotation, and the first affects exactly its one row. */
  lemma RotationIsItsStatements(ss: map<Id, Session>, id: Id, issue: Issue, now: Time)
    requires id in ss && ss[id].Live() && issue.id !in ss
    ensures AfterBackfill(ss, id, issue, now) == Rotate(ss, id, issue, now)
    ensures AfterRevoke(ss, id, now) == ss[id := Revoke(ss[id], now, Reason.Rotated)]
  {
    assert AfterRevoke(ss, id, now) == ss[id := Revoke(ss[id], now, Reason.Rotated)];
  }

  /** After the first statement the INSERT goes through exactly for an unexpired successor with
      a fresh id and hash: no family member is in its way any more. */
  lemma InsertableAfterRevoke(ss: map<Id, Session>, id: Id, issue: Issue, now: Time)
    requires FamilyActiveUnique(ss) && id in ss && ss[id].Live()
    ensures Insertable(AfterRevoke(ss, id, now), issue.id, Successor(ss[id], issue, now))
       <==> Renewable(ss, now, issue)
  {
    var s1 := AfterRevoke(ss, id, now);
    assert forall i | i in s1 ::
      s1[i].hash == ss[i].hash && s1[i].family == ss[i].family && (s1[i].Live() ==> ss[i].Live() && i != id);
    if i :| i in ss && ss[i].hash == issue.hash {
      assert i in s1;
    }
  }

  /** For a live row, an unexpired successor and a fresh id and hash, every statement of the
      rotation leaves the session constraints satisfied. */
  lemma RotationStatementsAreLegal(ss: map<Id, Session>, id: Id, issue: Issue, now: Time)
    requires SessionSchema(ss) && SessionClock(ss, now)
    requires id in ss && ss[id].Live()
    requires Renewable(ss, now, issue)
    ensures SessionSchema(AfterRevoke(ss, id, now))
    ensures SessionSchema(AfterInsert(ss, id, issue, now))
    ensures SessionSchema(Rotate(ss, id, issue, now))
  {
    RevokeLiveKeepsSchema(ss, {id}, now, Reason.Rotated);
    InsertableAfterRevoke(ss, id, issue, now);
    InsertKeepsSchema(AfterRevoke(ss, id, now), issue.id, Successor(ss[id], issue, now), now);
    BackfillKeepsSchema(AfterInsert(ss, id, issue, now), id, issue.id);
    RotationIsItsStatements(ss, id, issue, now);
  }

  /** The order of the statements is forced: inserting before revoking breaks the family-active
      index, and filling replaced_by before inserting breaks its foreign key. */
  lemma RotationOrderIsForced(ss: map<Id, Session>, id: Id, issue: Issue, now: Time)
    requires id in ss && ss[id].Live() && issue.id !in ss
    ensures !FamilyActiveUnique(ss[issue.id := Successor(ss[id], issue, now)])
    ensures var filled := Revoke(ss[id], now, Reason.Rotated).(replacedBy := Some(issue.id));
            !ReplacementExists(AfterRevoke(ss, id, now)[id := filled])
  {
    var a := ss[issue.id := Successor(ss[id], issue, now)];
    assert a[id].Live() && a[issue.id].Live() && a[id].family == a[issue.id].family;
    var b := AfterRevoke(ss, id, now)[id := Revoke(ss[id], now, Reason.Rotated).(replacedBy := Some(issue.id))];
    assert b[id].replacedBy.value !in b;
  }

  // ---- Single-row writes to the other tables ----

  lemma SubjectInsertKeepsSchema(t: Tables, id: Id, kind: Kind, now: Time)
    requires Legal(t, now)
    ensures Legal(t.(subjects := t.subjects[id := kind]), now)
  {}

  /** Writing one users row keeps the constraints when it fits and clashes with no other row. */
  lemma UserWriteKeepsSchema(t: Tables, id: Id, row: User, now: Time)
    requires Legal(t, now) && id in t.subjects && UserFits(row)
    requires forall j | j in t.users && j != id :: Distinct(row, t.users[j])
    ensures Legal(t.(users := t.users[id := row]), now)
  {
    var t' := t.(users := t.users[id := row]);
    assert forall j | j in t'.users && j != id :: t'.users[j] == t.users[j];
    assert UserSchema(t'.users, t'.subjects);
  }

  /** COALESCE on a session row keeps the constraints when the replacement names another row. */
  lemma CoalesceKeepsSchema(ss: map<Id, Session>, id: Id, row: Session, now: Time)
    requires SessionSchema(ss) && SessionClock(ss, now) && id in ss
    requires row == ss[id].(revokedAt := row.revokedAt, reason := row.reason, replacedBy := row.replacedBy)
    requires row.revokedAt == Coalesce(ss[id].revokedAt, Some(now))
    requires row.replacedBy.Some? ==> row.replacedBy.value in ss && row.replacedBy.value != id
    ensures SessionSchema(ss[id := row]) && SessionClock(ss[id := row], now)
  {
    var ss' := ss[id := row];
    assert forall i | i in ss' ::
      ss'[i].hash == ss[i].hash && ss'[i].family == ss[i].family && (ss'[i].Live() ==> ss[i].Live());
  }

  lemma MemberWriteKeepsSchema(t: Tables, key: MemberKey, row: Member, now: Time)
    requires Legal(t, now) && key.user in t.users && key.org in t.orgs && IsValidRole(row.role) && row.createdAt <= now
    ensures Legal(t.(members := t.members[key := row]), now)
  {}

  // ---- Cascades ----

  lemma CascadeKeepsSessionSchema(t: Tables, id: Id)
    requires SessionSchema(t.sessions)
    ensures SessionSchema(DeleteSubject(t, id).sessions)
  {
    var ss, ss' := t.sessions, DeleteSubject(t, id).sessions;
    assert forall i | i in ss' :: i in ss && ss'[i] == ss[i].(replacedBy := ss'[i].replacedBy);
    assert FamilyActiveUnique(ss') && HashUnique(ss') && SessionTimes(ss');
    forall i | i in ss' && ss'[i].replacedBy.Some?
      ensures ss'[i].replacedBy.value in ss' && ss'[i].replacedBy.value != i
    {
      assert ss'[i] == ss[i];
    }
  }

  /** Deleting a subject row with its cascades leaves every constraint satisfied. */
  lemma DeleteSubjectKeepsSchema(t: Tables, id: Id, now: Time)
    requires Legal(t, now)
    ensures Legal(DeleteSubject(t, id), now)
  {
    CascadeKeepsSessionSchema(t, id);
    var t' := DeleteSubject(t, id);
    assert forall i | i in t'.sessions ::
      i in t.sessions && t'.sessions[i] == t.sessions[i].(replacedBy := t'.sessions[i].replacedBy);
    assert UserSchema(t'.users, t'.subjects);
    assert MemberSchema(t'.members, t'.users, t'.orgs);
  }
}
