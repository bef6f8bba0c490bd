/** Who can change an organization's membership, under every interleaving of requests. */
module Membership {
  import opened Schema
  import opened SessionSql
  import opened MembershipSql
  import opened Rbac
  import opened Requests
  import opened Machine
  import opened Integrity
  import opened Effects
  import opened Invariants
  import opened Gate
  import opened Owners

  // ---- Writes are authorized ----

  /** The request has been authorized and may still write. */
  predicate PastAuthorization(r: Request)
  {
    r.Authorized? || r.TargetRead? || r.Counting? || r.Writing?
  }

  /** Event i is request rid's authorization of op, and it allows it: at that moment the caller
      is an active member whose role permits the operation. */
  ghost predicate Authorizes(run: Run, i: nat, rid: RequestId, tok: AccessToken, op: OrgOp)
    requires WellFormed(run) && i < |run.events|
  {
    var s := run.states[i];
    && CallsAt(run, i) && run.events[i].rid == rid
    && s.requests[rid] == Ready(tok, OnOrg(op))
    && ActiveMember(s.t, op.org, tok.subject)
    && Permits(s.t.members[MemberKey(tok.subject, op.org)].role, op.Action())
  }

  /** Request rid stays in flight for the same token and operation from state i + 1 to state n. */
  ghost predicate InFlight(run: Run, i: nat, n: nat, rid: RequestId, tok: AccessToken, op: OrgOp)
    requires WellFormed(run) && n < |run.states|
  {
    forall k | i < k <= n :: rid in run.states[k].requests && PastAuthorization(run.states[k].requests[rid])
      && run.states[k].requests[rid].tok == tok && run.states[k].requests[rid].op == op
  }

  /** A request comes to be past authorization only by its authorization, or from being there. */
  lemma ContinueAuthorizes(t: Tables, now: Time, r: Request, d: Draw, cfg: Config)
    ensures var p := Continue(r, Apply(t, now, NextCall(r, d, cfg)).reply, now, d, cfg);
            p.Pending? && PastAuthorization(p.next) ==>
              || (PastAuthorization(r) && p.next.tok == r.tok && p.next.op == r.op)
              || (&& r == Ready(p.next.tok, OnOrg(p.next.op))
                  && ActiveMember(t, p.next.op.org, p.next.tok.subject)
                  && Permits(t.members[MemberKey(p.next.tok.subject, p.next.op.org)].role, p.next.op.Action()))
  {}

  lemma AuthorizedByStep(run: Run, n: nat, rid: RequestId)
    requires Steps(run) && n < |run.events|
    requires rid in run.states[n + 1].requests && PastAuthorization(run.states[n + 1].requests[rid])
    ensures var r := run.states[n + 1].requests[rid];
            || Authorizes(run, n, rid, r.tok, r.op)
            || (rid in run.states[n].requests && PastAuthorization(run.states[n].requests[rid])
                && run.states[n].requests[rid].tok == r.tok && run.states[n].requests[rid].op == r.op)
  {
    var s, e := run.states[n], run.events[n];
    assert StepAt(run, n);
    if e.Call? && e.rid == rid {
      ContinueAuthorizes(s.t, s.now, s.requests[rid], e.draw, s.cfg);
    }
  }

  lemma {:induction false} AuthorizedEarlier(run: Run, n: nat, rid: RequestId) returns (i: nat)
    requires Steps(run) && run.states[0].requests == map[] && n < |run.states|
    requires rid in run.states[n].requests && PastAuthorization(run.states[n].requests[rid])
    ensures var r := run.states[n].requests[rid];
            i < n && Authorizes(run, i, rid, r.tok, r.op) && InFlight(run, i, n, rid, r.tok, r.op)
  {
    var r := run.states[n].requests[rid];
    AuthorizedByStep(run, n - 1, rid);
    if Authorizes(run, n - 1, rid, r.tok, r.op) {
      i := n - 1;
    } else {
      i := AuthorizedEarlier(run, n - 1, rid);
    }
  }

  // ---- and gated before that ----

  /** Request rid stands between gate and authorization from state g + 1 to state i. */
  ghost predicate Waits(run: Run, g: nat, i: nat, rid: RequestId, tok: AccessToken, op: OrgOp)
    requires WellFormed(run) && i < |run.states|
  {
    forall k | g < k <= i :: rid in run.states[k].requests && run.states[k].requests[rid] == Ready(tok, OnOrg(op))
  }

  lemma ReadyByStep(run: Run, n: nat, rid: RequestId, tok: AccessToken, op: OrgOp)
    requires Steps(run) && n < |run.events|
    requires rid in run.states[n + 1].requests && run.states[n + 1].requests[rid] == Ready(tok, OnOrg(op))
    ensures || PassesGateAt(run, n, rid, tok, OnOrg(op))
            || (rid in run.states[n].requests && run.states[n].requests[rid] == Ready(tok, OnOrg(op)))
  {
    assert StepAt(run, n);
    var s, e := run.states[n], run.events[n];
    if e.Call? && e.rid == rid {
      ContinueGates(s.requests[rid], ReplyOf(s, rid, e.draw), s.now, e.draw, s.cfg);
    }
  }

  /** A request comes to be ready only from the gate. */
  lemma ContinueGates(r: Request, reply: Reply, now: Time, d: Draw, cfg: Config)
    ensures var p := Continue(r, reply, now, d, cfg);
            p.Pending? && p.next.Ready? ==> r == Request.Gate(p.next.tok, p.next.act)
  {}

  /** A request that is ready for its authorization came past the live-session gate earlier, with
      the same token and operation. */
  lemma {:induction false} GatedEarlier(run: Run, n: nat, rid: RequestId, tok: AccessToken, op: OrgOp) returns (g: nat)
    requires Steps(run) && run.states[0].requests == map[] && n < |run.states|
    requires rid in run.states[n].requests && run.states[n].requests[rid] == Ready(tok, OnOrg(op))
    ensures g < n && PassesGateAt(run, g, rid, tok, OnOrg(op)) && Waits(run, g, n, rid, tok, op)
    ensures IsLiveSession(run.states[g].t, run.states[g].now, tok.session, tok.subject)
  {
    ReadyByStep(run, n - 1, rid, tok, op);
    if PassesGateAt(run, n - 1, rid, tok, OnOrg(op)) {
      g := n - 1;
      assert StepAt(run, g);
      PassedGateWasLive(run.states[g], rid, run.events[g].draw, tok, OnOrg(op));
    } else {
      g := GatedEarlier(run, n - 1, rid, tok, op);
    }
  }

  /** What a write of an operation does to the membership rows: the one row named by target and
      organization is added, given the requested role, or removed, or for a deletion the rows of
      the organization go; every other row stays. */
  ghost predicate WritesItsRows(a: map<MemberKey, Member>, b: map<MemberKey, Member>, op: OrgOp, now: Time)
  {
    match op
    case DeleteOrg(org) => b == map k | k in a && k.org != org :: a[k]
    case AddMember(org, target, role) =>
      MemberKey(target, org) !in a && b == a[MemberKey(target, org) := Member(role, now)]
    case UpdateRole(org, target, role) =>
      var key := MemberKey(target, org);
      key in a && b == a[key := Member(role, a[key].createdAt)]
    case RemoveMember(org, target) =>
      MemberKey(target, org) in a && b == map k | k in a && k != MemberKey(target, org) :: a[k]
  }

  lemma DeletionWritesItsRows(t: Tables, org: Id, caller: Id)
    requires KindsAgree(t.subjects, t.users, t.orgs) && MemberSchema(t.members, t.users, t.orgs)
    requires DeleteOrganization(t, org, caller).t.members != t.members
    ensures DeleteOrganization(t, org, caller).t.members == map k | k in t.members && k.org != org :: t.members[k]
  {
    assert org !in t.users;
  }

  lemma WriteTouchesItsRows(t: Tables, now: Time, op: OrgOp, caller: Id)
    requires KindsAgree(t.subjects, t.users, t.orgs) && MemberSchema(t.members, t.users, t.orgs)
    requires Apply(t, now, op.Write(caller)).t.members != t.members
    ensures ActiveMember(t, op.org, caller)
    ensures WritesItsRows(t.members, Apply(t, now, op.Write(caller)).t.members, op, now)
  {
    if op.DeleteOrg? {
      DeletionWritesItsRows(t, op.org, caller);
    } else {
      RowWriteWritesItsRow(t, now, op, caller);
    }
  }

  lemma RowWriteWritesItsRow(t: Tables, now: Time, op: OrgOp, caller: Id)
    requires !op.DeleteOrg?
    requires Apply(t, now, op.Write(caller)).t.members != t.members
    ensures ActiveMember(t, op.org, caller)
    ensures WritesItsRows(t.members, Apply(t, now, op.Write(caller)).t.members, op, now)
  {}

  /** When the write of an operation succeeds: the caller is an active member; a target to add is an
      active user without a row and gets a known role, and a target to change or remove has a row. */
  predicate WriteFits(t: Tables, op: OrgOp, caller: Id)
  {
    && MemberKey(caller, op.org) in t.members && caller in t.users && t.users[caller].active
    && match op
       case DeleteOrg(_) => true
       case AddMember(org, target, role) =>
         && target in t.users && t.users[target].active && MemberKey(target, org) !in t.members
         && role in {Owner, Admin, Editor, Viewer}
       case UpdateRole(org, target, role) =>
         MemberKey(target, org) in t.members && role in {Owner, Admin, Editor, Viewer}
       case RemoveMember(org, target) => MemberKey(target, org) in t.members
  }

  lemma WriteByOperation(t: Tables, now: Time, op: OrgOp, caller: Id)
    ensures Apply(t, now, op.Write(caller)) ==
            match op
            case DeleteOrg(org) => DeleteOrganization(t, org, caller)
            case AddMember(org, target, role) => AddOrganizationMember(t, now, org, target, caller, role)
            case UpdateRole(org, target, role) => UpdateOrganizationMemberRole(t, org, target, caller, role)
            case RemoveMember(org, target) => RemoveOrganizationMember(t, org, target, caller)
  {}

  /** A membership write succeeds exactly when it fits, and then its rows are written: the target's row
      is added, re-roled or gone, or the organization and all its rows are gone. Otherwise nothing
      changes. */
  lemma WriteSucceedsExactly(t: Tables, now: Time, op: OrgOp, caller: Id)
    requires Sound(t, now)
    ensures var e := Apply(t, now, op.Write(caller));
            && (!e.reply.Failed? <==> WriteFits(t, op, caller))
            && (WriteFits(t, op, caller) ==>
                  WritesItsRows(t.members, e.t.members, op, now) && (op.DeleteOrg? ==> op.org !in e.t.orgs))
            && (!WriteFits(t, op, caller) ==> e.t == t)
  {
    WriteByOperation(t, now, op, caller);
    match op
    case DeleteOrg(org) =>
      SoundSubjects(t);
      DeleteOrganizationExactly(t, org, caller);
    case AddMember(org, target, role) => AddMemberExactly(t, now, org, target, caller, role);
    case UpdateRole(org, target, role) => UpdateMemberExactly(t, org, target, caller, role);
    case RemoveMember(org, target) => RemoveMemberExactly(t, org, target, caller);
  }

  /** In every run, a request that is about to write is accepted exactly when its write fits the tables
      of that moment, and the next state has the written rows; otherwise the rows stay. */
  lemma AcceptedWriteTakesEffect(run: Run, n: nat, rid: RequestId, tok: AccessToken, op: OrgOp)
    requires IsRun(run) && n < |run.events| && CallsAt(run, n) && run.events[n].rid == rid
    requires run.states[n].requests[rid] == Writing(tok, op)
    ensures var s, s' := run.states[n], run.states[n + 1];
            var fits := WriteFits(s.t, op, tok.subject);
            && ProgressOf(s, rid, run.events[n].draw) == Finished(if fits then Accepted else Rejected)
            && (fits ==>
                  && WritesItsRows(s.t.members, s'.t.members, op, s.now)
                  && (op.DeleteOrg? ==> op.org !in s'.t.orgs))
            && (!fits ==> s'.t == s.t)
  {
    var s, d := run.states[n], run.events[n].draw;
    RunKeepsInvariant(run, n);
    assert StepAt(run, n);
    WriteSucceedsExactly(s.t, s.now, op, tok.subject);
    WritingCall(s, rid, d, tok, op);
  }

  lemma WritingCall(s: System, rid: RequestId, d: Draw, tok: AccessToken, op: OrgOp)
    requires rid in s.requests && s.requests[rid] == Writing(tok, op)
    ensures var e := Apply(s.t, s.now, op.Write(tok.subject));
            && ProgressOf(s, rid, d) == Finished(if e.reply.Failed? then Rejected else Accepted)
            && AfterCall(s, rid, d).t == e.t
  {
    AfterCallTables(s, rid, d);
  }

  /** In every run, a creation that is answered with success leaves the organization with its subject,
      its profile and the owner's row. */
  lemma CreationTakesEffect(run: Run, n: nat, org: Id, owner: Id)
    requires IsRun(run) && n < |run.events| && CreatesOrg(run, n, org, owner)
    ensures var s, t' := run.states[n], run.states[n + 1].t;
            && org !in s.t.orgs && org in t'.subjects && t'.subjects[org] == OrganizationKind
            && org in t'.orgs && t'.orgs[org] == CallAt(run, n).profile
            && t'.members == s.t.members[MemberKey(owner, org) := Member(Owner, s.now)]
  {
    var s, e := run.states[n], run.events[n];
    RunKeepsInvariant(run, n);
    assert StepAt(run, n);
    AfterCallTables(s, e.rid, e.draw);
    CreateOrganizationExactly(s.t, s.now, org, CallAt(run, n).profile, owner);
    CreationByCall(s.t, s.now, CallAt(run, n));
  }

  lemma CreationByCall(t: Tables, now: Time, call: DbCall)
    requires call.CallCreateOrganization?
    ensures Apply(t, now, call) == CreateOrganization(t, now, call.org, call.profile, call.owner)
  {}

  /** Apart from writing requests, only a request that creates an organization changes members,
      and it adds the owner row of the organization it names with a new identifier. */
  lemma MembersChangeByWriting(t: Tables, now: Time, r: Request, d: Draw, cfg: Config)
    requires Apply(t, now, NextCall(r, d, cfg)).t.members != t.members
    ensures !r.Writing? ==>
      && r.Ready? && r.act.CreateOrg?
      && Apply(t, now, NextCall(r, d, cfg)).t.members == t.members[MemberKey(r.tok.subject, d.id) := Member(Owner, now)]
  {
    if !WritesMembers(NextCall(r, d, cfg)) {
      OtherCallsKeepMembers(t, now, NextCall(r, d, cfg));
    }
  }

  /** The request passed the live-session gate at event g, while its session was live, and its
      authorization at event i, and has been in flight since. */
  ghost predicate AuthorizedAt(run: Run, g: nat, i: nat, n: nat, rid: RequestId, tok: AccessToken, op: OrgOp)
    requires WellFormed(run) && n < |run.states|
  {
    && g < i < n
    && PassesGateAt(run, g, rid, tok, OnOrg(op))
    && IsLiveSession(run.states[g].t, run.states[g].now, tok.session, tok.subject)
    && Waits(run, g, i, rid, tok, op)
    && Authorizes(run, i, rid, tok, op) && InFlight(run, i, n, rid, tok, op)
  }

  ghost predicate AuthorizedBefore(run: Run, n: nat, rid: RequestId, tok: AccessToken, op: OrgOp)
    requires WellFormed(run) && n < |run.states|
  {
    exists g, i :: AuthorizedAt(run, g, i, n, rid, tok, op)
  }

  /** A membership write takes effect only if the caller is an active member of the organization
      at that moment and passed gate and authorization earlier in the same request; it changes only
      the row of its target, or for a deletion the rows of its organization. The one other event
      that changes memberships creates an organization and adds its owner row. */
  lemma MembershipWriteIsAuthorized(run: Run, n: nat)
    requires IsRun(run) && n < |run.events|
    requires run.states[n + 1].t.members != run.states[n].t.members
    ensures CallsAt(run, n)
    ensures var s, s', e := run.states[n], run.states[n + 1], run.events[n];
            var r := s.requests[e.rid];
            if r.Writing? then
              && ActiveMember(s.t, r.op.org, r.tok.subject)
              && AuthorizedBefore(run, n, e.rid, r.tok, r.op)
              && WritesItsRows(s.t.members, s'.t.members, r.op, s.now)
            else
              && r.Ready? && r.act.CreateOrg?
              && s'.t.members == s.t.members[MemberKey(r.tok.subject, e.draw.id) := Member(Owner, s.now)]
  {
    var s, e := run.states[n], run.events[n];
    assert StepAt(run, n);
    var r := s.requests[e.rid];
    RunKeepsInvariant(run, n);
    AfterCallTables(s, e.rid, e.draw);
    MembersChangeByWriting(s.t, s.now, r, e.draw, s.cfg);
    if r.Writing? {
      WriteTouchesItsRows(s.t, s.now, r.op, r.tok.subject);
      var i := AuthorizedEarlier(run, n, e.rid);
      var g := GatedEarlier(run, i, e.rid, r.tok, r.op);
      assert AuthorizedAt(run, g, i, n, e.rid, r.tok, r.op);
    }
  }

  // ---- Deletion ----

  /** An organization goes only by a deletion that names it. */
  lemma OrganizationGoesByDeletion(t: Tables, now: Time, r: Request, d: Draw, cfg: Config, org: Id)
    requires org in t.orgs && org !in Apply(t, now, NextCall(r, d, cfg)).t.orgs
    ensures r.Writing? && r.op == DeleteOrg(org)
  {
    var call := NextCall(r, d, cfg);
    if !WritesMembers(call) {
      OtherCallsKeepMembers(t, now, call);
    }
  }

  /** The authorizer lets only the owner delete. */
  lemma DeletionNeedsOwner(run: Run, i: nat, rid: RequestId, tok: AccessToken, org: Id)
    requires IsRun(run) && i < |run.events| && Authorizes(run, i, rid, tok, DeleteOrg(org))
    ensures org in run.states[i].creators && run.states[i].creators[org] == tok.subject
  {
    var s := run.states[i];
    RunKeepsInvariant(run, i);
    PermissionsExactly(s.t.members[MemberKey(tok.subject, org)].role, OrganizationDelete);
    assert org in s.t.orgs;
    ExactlyOneOwner(run, i, org);
  }

  /** In every run an organization ends only by a deletion that its creator asked for: past the gate
      and authorized, both earlier in the same request. */
  lemma OrganizationsEndByTheirCreator(run: Run, n: nat, org: Id)
    requires IsRun(run) && n < |run.events| && org in run.states[n].t.orgs && org !in run.states[n + 1].t.orgs
    ensures CallsAt(run, n) && org in run.states[n].creators
    ensures var r := run.states[n].requests[run.events[n].rid];
            && r.Writing? && r.op == DeleteOrg(org) && r.tok.subject == run.states[n].creators[org]
            && AuthorizedBefore(run, n, run.events[n].rid, r.tok, r.op)
  {
    var s, e := run.states[n], run.events[n];
    assert StepAt(run, n);
    AfterCallTables(s, e.rid, e.draw);
    var r := s.requests[e.rid];
    OrganizationGoesByDeletion(s.t, s.now, r, e.draw, s.cfg, org);
    var i := AuthorizedEarlier(run, n, e.rid);
    var g := GatedEarlier(run, i, e.rid, r.tok, r.op);
    assert AuthorizedAt(run, g, i, n, e.rid, r.tok, r.op);
    DeletionNeedsOwner(run, i, e.rid, r.tok, org);
    CreatorsStay(run, i, n, org);
  }

  // ---- Coalitions without a manager ----

  /** The membership rows of one organization. */
  function OrgRows(ms: map<MemberKey, Member>, org: Id): map<MemberKey, Member>
  {
    map k | k in ms && k.org == org :: ms[k]
  }

  /** No member of the coalition is owner or admin among these rows. */
  ghost predicate NoManager(rows: map<MemberKey, Member>, org: Id, coalition: set<Id>)
  {
    forall c | c in coalition && MemberKey(c, org) in rows :: !Manages(rows[MemberKey(c, org)].role)
  }

  /** Every request that carries a token is the coalition's, and none that concerns the
      organization has come past authorization. */
  predicate Harmless(r: Request, org: Id, coalition: set<Id>)
  {
    (HasToken(r) ==> r.tok.subject in coalition) && (PastAuthorization(r) ==> r.op.org != org)
  }

  ghost predicate Contained(s: System, org: Id, rows: map<MemberKey, Member>, coalition: set<Id>)
  {
    && org in s.t.orgs && OrgRows(s.t.members, org) == rows
    && forall rid | rid in s.requests :: Harmless(s.requests[rid], org, coalition)
  }

  lemma OnlyManagersPassAuthorization(role: Role, op: OrgOp)
    requires Permits(role, op.Action())
    ensures Manages(role)
  {}

  lemma ContinueStaysHarmless(s: System, r: Request, d: Draw, org: Id, rows: map<MemberKey, Member>, coalition: set<Id>)
    requires OrgRows(s.t.members, org) == rows && NoManager(rows, org, coalition) && Harmless(r, org, coalition)
    ensures var p := Continue(r, Apply(s.t, s.now, NextCall(r, d, s.cfg)).reply, s.now, d, s.cfg);
            p.Pending? ==> Harmless(p.next, org, coalition)
  {
    var p := Continue(r, Apply(s.t, s.now, NextCall(r, d, s.cfg)).reply, s.now, d, s.cfg);
    ContinueKeepsToken(r, Apply(s.t, s.now, NextCall(r, d, s.cfg)).reply, s.now, d, s.cfg);
    ContinueAuthorizes(s.t, s.now, r, d, s.cfg);
    if p.Pending? && PastAuthorization(p.next) && !PastAuthorization(r) && p.next.op.org == org {
      OnlyManagersPassAuthorization(s.t.members[MemberKey(r.tok.subject, org)].role, p.next.op);
    }
  }

  /** Calls of harmless requests leave the organization's rows as they are. */
  predicate SparesOrg(call: DbCall, org: Id)
  {
    WritesMembers(call) ==> call.org != org
  }

  lemma NextCallSparesOrg(r: Request, d: Draw, cfg: Config, org: Id, coalition: set<Id>)
    requires Harmless(r, org, coalition) && d.id != org
    ensures SparesOrg(NextCall(r, d, cfg), org)
  {}

  lemma WriteSparesOrg(t: Tables, now: Time, call: DbCall, org: Id)
    requires WritesMembers(call) && !call.CallDeleteOrganization? && call.org != org && org in t.orgs
    ensures org in Apply(t, now, call).t.orgs
    ensures OrgRows(Apply(t, now, call).t.members, org) == OrgRows(t.members, org)
  {}

  lemma CallSparesOrg(t: Tables, now: Time, call: DbCall, org: Id)
    requires KindsAgree(t.subjects, t.users, t.orgs) && MemberSchema(t.members, t.users, t.orgs)
    requires SparesOrg(call, org) && org in t.orgs
    ensures org in Apply(t, now, call).t.orgs
    ensures OrgRows(Apply(t, now, call).t.members, org) == OrgRows(t.members, org)
  {
    if !WritesMembers(call) {
      OtherCallsKeepMembers(t, now, call);
    } else if !call.CallDeleteOrganization? {
      WriteSparesOrg(t, now, call, org);
    } else if DeleteOrganization(t, call.org, call.caller).t != t {
      DeletionSparesOthers(t, call.org, org);
    }
  }

  lemma CallStaysContained(s: System, rid: RequestId, d: Draw,
                           org: Id, rows: map<MemberKey, Member>, coalition: set<Id>)
    requires Invariant(s) && rid in s.requests && d.id !in s.used
    requires NoManager(rows, org, coalition) && Contained(s, org, rows, coalition)
    ensures Contained(AfterCall(s, rid, d), org, rows, coalition)
  {
    var r, s' := s.requests[rid], AfterCall(s, rid, d);
    assert Harmless(r, org, coalition);
    assert org in s.t.subjects;
    NextCallSparesOrg(r, d, s.cfg, org, coalition);
    CallSparesOrg(s.t, s.now, NextCall(r, d, s.cfg), org);
    AfterCallTables(s, rid, d);
    ContinueStaysHarmless(s, r, d, org, rows, coalition);
    forall k | k in s'.requests ensures Harmless(s'.requests[k], org, coalition) {
      if k != rid {
        assert Harmless(s.requests[k], org, coalition);
      }
    }
  }

  /** Requests with a token begun by this event are the coalition's. */
  predicate ByCoalition(e: Event, coalition: set<Id>)
  {
    e.Begin? && HasToken(e.request) ==> e.request.tok.subject in coalition
  }

  lemma NextStaysContained(s: System, e: Event, org: Id, rows: map<MemberKey, Member>, coalition: set<Id>)
    requires Invariant(s) && Enabled(s, e) && ByCoalition(e, coalition)
    requires NoManager(rows, org, coalition) && Contained(s, org, rows, coalition)
    ensures Contained(Next(s, e), org, rows, coalition)
  {
    if e.Call? {
      CallStaysContained(s, e.rid, e.draw, org, rows, coalition);
    }
  }

  /** From any state of a run with no request in flight, callers none of whom is owner or admin
      of an organization can interleave requests of any kind and number without changing its
      membership rows or deleting it. */
  lemma {:induction false} CoalitionCannotTouch(run: Run, i: nat, j: nat, org: Id, coalition: set<Id>)
    requires IsRun(run) && i <= j < |run.states|
    requires run.states[i].requests == map[] && org in run.states[i].t.orgs
    requires NoManager(OrgRows(run.states[i].t.members, org), org, coalition)
    requires forall k | i <= k < j :: ByCoalition(run.events[k], coalition)
    ensures org in run.states[j].t.orgs
    ensures OrgRows(run.states[j].t.members, org) == OrgRows(run.states[i].t.members, org)
    ensures Contained(run.states[j], org, OrgRows(run.states[i].t.members, org), coalition)
  {
    if i < j {
      CoalitionCannotTouch(run, i, j - 1, org, coalition);
      RunKeepsInvariant(run, j - 1);
      assert StepAt(run, j - 1);
      NextStaysContained(run.states[j - 1], run.events[j - 1], org, OrgRows(run.states[i].t.members, org), coalition);
    }
  }
}
