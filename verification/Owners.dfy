/** The owner of an organization, under every interleaving of requests. The owner count and the
    write it guards are separate database calls; the guarantee is global instead: only creating
    an organization makes an owner, and no request in flight is past its guard with an owner as
    its target. */
module Owners {
  import opened Schema
  import opened MembershipSql
  import opened Requests
  import opened Machine
  import opened Integrity
  import opened Invariants

  /** Of the organization's rows exactly the one of `owner` has the owner role. */
  ghost predicate OnlyOwner(ms: map<MemberKey, Member>, org: Id, owner: Id)
  {
    && MemberKey(owner, org) in ms
    && forall k | k in ms && k.org == org :: ms[k].role == Owner <==> k.user == owner
  }

  ghost predicate CreatorsOwn(t: Tables, creators: map<Id, Id>)
  {
    forall o | o in t.orgs :: o in creators && OnlyOwner(t.members, o, creators[o])
  }

  /** The target is known not to be the creator. */
  predicate SpareTarget(creators: map<Id, Id>, org: Id, target: Id)
  {
    org in creators && target != creators[org]
  }

  /** What is known of a request that has come past a guard. */
  predicate Guarded(creators: map<Id, Id>, r: Request)
  {
    match r
    case Authorized(_, op) => op.BodyAccepted()
    case TargetRead(_, op, targetRole) =>
      op.BodyAccepted() && (op.UpdateRole? && targetRole != Owner ==> SpareTarget(creators, op.org, op.target))
    case Counting(_, op) => op.BodyAccepted()
    case Writing(_, op) =>
      op.BodyAccepted() && (op.UpdateRole? || op.RemoveMember? ==> SpareTarget(creators, op.org, op.target))
    case _ => true
  }

  ghost predicate AllGuarded(s: System)
  {
    forall rid | rid in s.requests :: Guarded(s.creators, s.requests[rid])
  }

  ghost predicate OwnersInvariant(s: System)
  {
    CreatorsOwn(s.t, s.creators) && s.creators.Keys <= s.used && AllGuarded(s)
  }

  // ---- Reads ----

  /** A member read that does not say owner was not of the creator. */
  lemma NonOwnerIsSpare(t: Tables, now: Time, creators: map<Id, Id>, org: Id, user: Id, caller: Id)
    requires MemberSchema(t.members, t.users, t.orgs) && CreatorsOwn(t, creators)
    ensures var reply := GetOrganizationMember(t, org, user, caller).reply;
            reply.MemberReply? && reply.role != Owner ==> SpareTarget(creators, org, user)
  {
    var k := MemberKey(user, org);
    if k in t.members {
      assert k.org in t.orgs;
    }
  }

  /** The owner count never exceeds one: the last-owner guard refuses every time. */
  lemma CountIsAtMostOne(t: Tables, creators: map<Id, Id>, org: Id, caller: Id)
    requires MemberSchema(t.members, t.users, t.orgs) && CreatorsOwn(t, creators)
    ensures OwnerCount(ListOrganizationMembers(t, org, caller).reply.roles) <= 1
  {
    var roles := ListOrganizationMembers(t, org, caller).reply.roles;
    var owners := OwnersAmong(roles);
    if ActiveMember(t, org, caller) {
      assert MemberKey(caller, org) in t.members && org in t.orgs;
      assert owners <= {creators[org]} by {
        forall u | u in owners ensures u == creators[org] {
          assert MemberKey(u, org) in t.members && t.members[MemberKey(u, org)].role == Owner;
        }
      }
      SubsetSize(owners, {creators[org]});
    } else {
      assert owners == {};
    }
  }

  lemma SubsetSize(a: set<Id>, b: set<Id>)
    requires a <= b
    ensures |a| <= |b|
  {
    assert b == a + (b - a);
  }

  lemma ContinueStaysGuarded(s: System, r: Request, d: Draw)
    requires MemberSchema(s.t.members, s.t.users, s.t.orgs) && CreatorsOwn(s.t, s.creators) && Guarded(s.creators, r)
    ensures var p := Continue(r, Apply(s.t, s.now, NextCall(r, d, s.cfg)).reply, s.now, d, s.cfg);
            p.Pending? ==> Guarded(s.creators, p.next)
  {
    match r
    case Authorized(tok, op) =>
      if op.UpdateRole? || op.RemoveMember? {
        NonOwnerIsSpare(s.t, s.now, s.creators, op.org, op.target, tok.subject);
      }
    case Counting(tok, op) =>
      CountIsAtMostOne(s.t, s.creators, op.org, tok.subject);
    case _ =>
  }

  // ---- Writes ----

  predicate WritesMembers(call: DbCall)
  {
    || call.CallCreateOrganization? || call.CallDeleteOrganization?
    || call.CallAddOrganizationMember? || call.CallUpdateOrganizationMemberRole? || call.CallRemoveOrganizationMember?
  }

  lemma OtherCallsKeepMembers(t: Tables, now: Time, call: DbCall)
    requires !WritesMembers(call)
    ensures Apply(t, now, call).t.members == t.members && Apply(t, now, call).t.orgs == t.orgs
  {}

  /** The membership writes of requests that are past their guards. */
  predicate GuardedCall(creators: map<Id, Id>, used: set<Id>, call: DbCall)
  {
    match call
    case CallCreateOrganization(org, _, _) => org !in used
    case CallAddOrganizationMember(_, _, _, role) => role != Owner
    case CallUpdateOrganizationMemberRole(org, user, _, role) => role != Owner && SpareTarget(creators, org, user)
    case CallRemoveOrganizationMember(org, user, _) => SpareTarget(creators, org, user)
    case _ => true
  }

  lemma NextCallIsGuarded(creators: map<Id, Id>, used: set<Id>, r: Request, d: Draw, cfg: Config)
    requires Guarded(creators, r) && d.id !in used
    ensures GuardedCall(creators, used, NextCall(r, d, cfg))
  {}

  lemma DeletionSparesOthers(t: Tables, org: Id, o: Id)
    requires KindsAgree(t.subjects, t.users, t.orgs) && MemberSchema(t.members, t.users, t.orgs)
    requires org in t.subjects && t.subjects[org] == OrganizationKind && o != org
    ensures forall k: MemberKey | k.org == o :: k in DeleteSubject(t, org).members <==> k in t.members
    ensures forall k | k in DeleteSubject(t, org).members :: DeleteSubject(t, org).members[k] == t.members[k]
  {}

  lemma CreationKeepsOwners(t: Tables, now: Time, creators: map<Id, Id>, org: Id, profile: Organization, owner: Id)
    requires MemberSchema(t.members, t.users, t.orgs) && CreatorsOwn(t, creators) && org !in creators
    ensures var e := CreateOrganization(t, now, org, profile, owner);
            CreatorsOwn(e.t, creators + Created(CallCreateOrganization(org, profile, owner), e.reply))
  {
    var e := CreateOrganization(t, now, org, profile, owner);
    var creators' := creators + Created(CallCreateOrganization(org, profile, owner), e.reply);
    if e.reply.Done? {
      forall o | o in e.t.orgs ensures o in creators' && OnlyOwner(e.t.members, o, creators'[o]) {
        if o == org {
          assert forall k | k in t.members :: k.org in t.orgs;
          assert creators'[o] == owner;
        } else {
          assert OnlyOwner(t.members, o, creators[o]);
        }
      }
    }
  }

  lemma DeletionKeepsOwners(t: Tables, creators: map<Id, Id>, org: Id, caller: Id)
    requires KindsAgree(t.subjects, t.users, t.orgs) && MemberSchema(t.members, t.users, t.orgs)
    requires CreatorsOwn(t, creators)
    ensures CreatorsOwn(DeleteOrganization(t, org, caller).t, creators)
  {
    var t' := DeleteOrganization(t, org, caller).t;
    if t' != t {
      forall o | o in t'.orgs ensures o in creators && OnlyOwner(t'.members, o, creators[o]) {
        DeletionSparesOthers(t, org, o);
        assert OnlyOwner(t.members, o, creators[o]);
      }
    }
  }

  lemma MemberWriteKeepsOwners(t: Tables, now: Time, creators: map<Id, Id>, used: set<Id>, call: DbCall)
    requires CreatorsOwn(t, creators) && GuardedCall(creators, used, call)
    requires
      call.CallAddOrganizationMember? || call.CallUpdateOrganizationMemberRole? || call.CallRemoveOrganizationMember?
    ensures CreatorsOwn(Apply(t, now, call).t, creators)
  {
    var t' := Apply(t, now, call).t;
    forall o | o in t'.orgs ensures OnlyOwner(t'.members, o, creators[o]) {
      assert OnlyOwner(t.members, o, creators[o]);
    }
  }

  lemma CallKeepsOwners(t: Tables, now: Time, creators: map<Id, Id>, used: set<Id>, call: DbCall)
    requires Sound(t, now) && CreatorsOwn(t, creators) && creators.Keys <= used && GuardedCall(creators, used, call)
    ensures CreatorsOwn(Apply(t, now, call).t, creators + Created(call, Apply(t, now, call).reply))
  {
    if call.CallCreateOrganization? {
      CreationKeepsOwners(t, now, creators, call.org, call.profile, call.owner);
    } else {
      assert creators + Created(call, Apply(t, now, call).reply) == creators;
      WriteKeepsOwners(t, now, creators, used, call);
    }
  }

  lemma WriteKeepsOwners(t: Tables, now: Time, creators: map<Id, Id>, used: set<Id>, call: DbCall)
    requires Sound(t, now) && CreatorsOwn(t, creators)
    requires GuardedCall(creators, used, call) && !call.CallCreateOrganization?
    ensures CreatorsOwn(Apply(t, now, call).t, creators)
  {
    if !WritesMembers(call) {
      OtherCallsKeepMembers(t, now, call);
    } else if call.CallDeleteOrganization? {
      DeletionKeepsOwners(t, creators, call.org, call.caller);
    } else {
      MemberWriteKeepsOwners(t, now, creators, used, call);
    }
  }

  // ---- Events ----

  /** Creators are never overwritten, so what is known of a target stays known. */
  lemma CreatorsGrow(creators: map<Id, Id>, more: map<Id, Id>, r: Request)
    requires Guarded(creators, r) && creators.Keys !! more.Keys
    ensures Guarded(creators + more, r)
  {}

  lemma CreatedIsNew(s: System, rid: RequestId, d: Draw)
    requires rid in s.requests && d.id !in s.used && s.creators.Keys <= s.used
    ensures var call := NextCall(s.requests[rid], d, s.cfg);
            var more := Created(call, Apply(s.t, s.now, call).reply);
            more.Keys !! s.creators.Keys && more.Keys <= {d.id}
  {}

  lemma AfterCallCreators(s: System, rid: RequestId, d: Draw)
    requires rid in s.requests
    ensures var call := NextCall(s.requests[rid], d, s.cfg);
            AfterCall(s, rid, d).creators == s.creators + Created(call, Apply(s.t, s.now, call).reply)
  {}

  lemma RequestsStayGuarded(s: System, rid: RequestId, d: Draw)
    requires Sound(s.t, s.now) && OwnersInvariant(s) && rid in s.requests && d.id !in s.used
    ensures AllGuarded(AfterCall(s, rid, d))
  {
    var r, s' := s.requests[rid], AfterCall(s, rid, d);
    var call := NextCall(r, d, s.cfg);
    var more := Created(call, Apply(s.t, s.now, call).reply);
    var p := Continue(r, Apply(s.t, s.now, call).reply, s.now, d, s.cfg);
    CreatedIsNew(s, rid, d);
    AfterCallCreators(s, rid, d);
    ContinueStaysGuarded(s, r, d);
    forall k | k in s'.requests ensures Guarded(s'.creators, s'.requests[k]) {
      CreatorsGrow(s.creators, more, if k == rid then p.next else s.requests[k]);
    }
  }

  lemma CallKeepsOwnersInvariant(s: System, rid: RequestId, d: Draw)
    requires Sound(s.t, s.now) && OwnersInvariant(s) && rid in s.requests && d.id !in s.used
    ensures OwnersInvariant(AfterCall(s, rid, d))
  {
    var call := NextCall(s.requests[rid], d, s.cfg);
    assert Guarded(s.creators, s.requests[rid]);
    NextCallIsGuarded(s.creators, s.used, s.requests[rid], d, s.cfg);
    CallKeepsOwners(s.t, s.now, s.creators, s.used, call);
    CreatedIsNew(s, rid, d);
    AfterCallCreators(s, rid, d);
    AfterCallTables(s, rid, d);
    RequestsStayGuarded(s, rid, d);
  }

  lemma NextKeepsOwnersInvariant(s: System, e: Event)
    requires Sound(s.t, s.now) && OwnersInvariant(s) && Enabled(s, e)
    ensures OwnersInvariant(Next(s, e))
  {
    if e.Call? {
      CallKeepsOwnersInvariant(s, e.rid, e.draw);
    }
  }

  lemma {:induction false} RunKeepsOwners(run: Run, n: nat)
    requires IsRun(run) && n < |run.states|
    ensures OwnersInvariant(run.states[n])
  {
    if n > 0 {
      RunKeepsOwners(run, n - 1);
      RunKeepsInvariant(run, n - 1);
      assert StepAt(run, n - 1);
      NextKeepsOwnersInvariant(run.states[n - 1], run.events[n - 1]);
    }
  }

  // ---- Theorems ----

  /** In every state of every run each existing organization has exactly one owner row, and it
      is its creator's. */
  lemma ExactlyOneOwner(run: Run, n: nat, org: Id)
    requires IsRun(run) && n < |run.states| && org in run.states[n].t.orgs
    ensures org in run.states[n].creators
    ensures OnlyOwner(run.states[n].t.members, org, run.states[n].creators[org])
  {
    RunKeepsOwners(run, n);
  }

  ghost predicate CreatesOrg(run: Run, i: nat, org: Id, owner: Id)
    requires Steps(run) && i < |run.events|
  {
    CallsAt(run, i) &&
    var call := CallAt(run, i);
    call.CallCreateOrganization? && call.org == org && call.owner == owner && ReplyAt(run, i).Done?
  }

  lemma CreatorsStep(run: Run, n: nat, org: Id, owner: Id)
    requires IsRun(run) && n < |run.events|
    ensures org in run.states[n + 1].creators && run.states[n + 1].creators[org] == owner
       <==> (org in run.states[n].creators && run.states[n].creators[org] == owner) || CreatesOrg(run, n, org, owner)
  {
    var s, e := run.states[n], run.events[n];
    RunKeepsOwners(run, n);
    assert StepAt(run, n);
    if e.Call? {
      CreatedIsNew(s, e.rid, e.draw);
      AfterCallCreators(s, e.rid, e.draw);
    }
  }

  /** The creator on record is the user for whom the organization was created earlier in the run. */
  lemma {:induction false} CreatorIsWhoCreated(run: Run, n: nat, org: Id, owner: Id)
    requires IsRun(run) && n < |run.states|
    ensures org in run.states[n].creators && run.states[n].creators[org] == owner
       <==> exists i :: 0 <= i < n && CreatesOrg(run, i, org, owner)
  {
    if n > 0 {
      CreatorIsWhoCreated(run, n - 1, org, owner);
      CreatorsStep(run, n - 1, org, owner);
      if i :| 0 <= i < n && CreatesOrg(run, i, org, owner) {
        assert i == n - 1 || (0 <= i < n - 1 && CreatesOrg(run, i, org, owner));
      }
    }
  }

  /** No event demotes or removes the owner: as long as the organization exists, the row of its
      creator stays, with the owner role. */
  lemma {:induction false} OwnerKeepsRow(run: Run, i: nat, j: nat, org: Id, owner: Id)
    requires IsRun(run) && i <= j < |run.states|
    requires org in run.states[i].t.orgs && OnlyOwner(run.states[i].t.members, org, owner)
    requires org in run.states[j].t.orgs
    ensures OnlyOwner(run.states[j].t.members, org, owner)
  {
    ExactlyOneOwner(run, i, org);
    ExactlyOneOwner(run, j, org);
    assert run.states[i].creators[org] == owner;
    CreatorsStay(run, i, j, org);
  }

  lemma {:induction false} CreatorsStay(run: Run, i: nat, j: nat, org: Id)
    requires IsRun(run) && i <= j < |run.states| && org in run.states[i].creators
    ensures org in run.states[j].creators && run.states[j].creators[org] == run.states[i].creators[org]
  {
    var owner := run.states[i].creators[org];
    CreatorIsWhoCreated(run, i, org, owner);
    var k :| 0 <= k < i && CreatesOrg(run, k, org, owner);
    CreatorIsWhoCreated(run, j, org, owner);
  }
}
