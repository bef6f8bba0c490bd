/** A concrete run from the empty database: ann registers and logs in. The counterexample runs
    continue from its last state. */
module FirstLogin {
  import opened Outcomes
  import opened Credentials
  import opened Schema
  import opened SessionSql
  import opened Requests
  import opened Machine
  import opened Invariants
  import Base64

  const CFG: Config := Config(1, 100, 100, false)
  const ANN: User := User(true, "ann", "ann@example.org", None, "hash")
  const CLIENT: Client := Client(Inet("192.0.2.1"), NoAgent)
  const TOKEN: AccessToken := AccessToken(1, 5, UserKind, 100)

  function Fresh(id: Id, byte: Base64.Byte): Draw
  {
    Draw(id, id + 1, [byte], 0, true)
  }

  /** ann's session row, stored with the refresh token of the zero byte. */
  function FirstSession(): Session
  {
    Session(1, 6, CreateRefreshTokenPair([0]).hash, CLIENT, 0, 100, None, None, None)
  }

  function Begun(s: System, rid: RequestId, r: Request): System
  {
    s.(requests := s.requests[rid := r])
  }

  function Drawn(s: System, d: Draw): System
  {
    s.(used := s.used + {d.id, d.family})
  }

  const S0: System := System(CFG, EMPTY, 0, {}, {}, map[], map[])
  const S1: System := Begun(S0, 0, Registering("ann", "ann@example.org", "hash", ""))
  const S2: System := S0.(t := EMPTY.(subjects := map[1 := UserKind], users := map[1 := ANN]), used := {1, 2})
  const S4: System := Begun(S2, 0, LoginCreate(1, CLIENT)).(used := {1, 2, 3, 4})

  /** ann has one live session, and TOKEN is her access token for it. */
  const S5: System := S2.(
    t := S2.t.(sessions := map[5 := FirstSession()]),
    used := {1, 2, 3, 4, 5, 6},
    tokens := {TOKEN})

  lemma OneMoreStep(s: System, e: Event)
    requires Reachable(s) && Enabled(s, e)
    ensures Reachable(Next(s, e))
  {
    OneEventLeads(s, e);
    LeadsToReachable(s, Next(s, e));
  }

  /** A call uses up the identifiers it drew, and no others. */
  lemma DrawsAgain(s: System, rid: RequestId, d: Draw, next: Draw)
    requires rid in s.requests && Drawable(s, d) && Drawable(s, next)
    requires next.id !in {d.id, d.family} && next.family !in {d.id, d.family}
    ensures Drawable(AfterCall(s, rid, d), next)
  {
    AfterCallTables(s, rid, d);
  }

  lemma Starts()
    ensures Reachable(S1)
  {
    assert IsRun(Run([S0], []));
    assert Reachable(S0);
    OneMoreStep(S0, Begin(0, Registering("ann", "ann@example.org", "hash", "")));
  }

  lemma Registers()
    ensures Reachable(S2)
  {
    Starts();
    var d := Fresh(1, 0);
    AnnIsCreated(d);
    assert S1.requests - {0} == map[];
    OneMoreStep(S1, Call(0, d));
  }

  lemma AnnIsCreated(d: Draw)
    requires d.id == 1
    ensures Apply(S1.t, 0, NextCall(S1.requests[0], d, CFG)) == Effect(S2.t, UserReply(1, ANN))
  {}

  /** From any state in which ann is the only user, her login gets past the password check. */
  lemma LooksUp(s: System, d: Draw)
    requires Reachable(s) && s.t.users == map[1 := ANN] && 0 !in s.requests && Drawable(s, d) && d.passwordMatches
    ensures Reachable(Drawn(Begun(s, 0, LoginCreate(1, CLIENT)), d))
  {
    var begun := Begun(s, 0, LoginLookup("ann", "", CLIENT));
    OneMoreStep(s, Begin(0, LoginLookup("ann", "", CLIENT)));
    assert 1 in s.t.users && LoginMatches(s.t.users[1], "ann", "");
    assert GetUserByLogin(s.t, "ann", "").reply == UserReply(1, ANN);
    assert s.creators + map[] == s.creators;
    assert begun.requests[0 := LoginCreate(1, CLIENT)] == s.requests[0 := LoginCreate(1, CLIENT)];
    OneMoreStep(begun, Call(0, d));
  }

  lemma LogsIn()
    ensures Reachable(S5)
  {
    Registers();
    LooksUp(S2, Fresh(3, 0));
    var d := Fresh(5, 0);
    assert Insertable(S4.t.sessions, 5, FirstSession());
    assert Apply(S4.t, 0, NextCall(S4.requests[0], d, CFG)) == Effect(S5.t, SessionReply(5, FirstSession()));
    assert S4.requests - {0} == map[];
    OneMoreStep(S4, Call(0, d));
  }

  /** Past the gate with this purpose. */
  function Gated(s: System, rid: RequestId, act: Act, d: Draw): System
  {
    Drawn(Begun(s, rid, Ready(TOKEN, act)), d)
  }

  predicate Purpose(act: Act)
  {
    act == Logout || act == DeleteUser || (act.PatchUser? && act.username.Some?)
  }

  /** Ann's first session is live, and TOKEN names it. */
  predicate SignedIn(s: System)
  {
    TOKEN in s.tokens && s.now == 0 && 5 in s.t.sessions && s.t.sessions[5] == FirstSession()
  }

  /** The gate lets a request with TOKEN through while its session is live. */
  lemma PassesGate(s: System, rid: RequestId, act: Act, d: Draw)
    requires rid !in s.requests && Drawable(s, d) && SignedIn(s) && Purpose(act)
    ensures Leads(s, Gated(s, rid, act, d))
  {
    var begun := Begun(s, rid, Request.Gate(TOKEN, act));
    OneEventLeads(s, Begin(rid, Request.Gate(TOKEN, act)));
    GateReads(begun, rid, act, d);
    OneEventLeads(begun, Call(rid, d));
    assert begun.requests[rid := Ready(TOKEN, act)] == s.requests[rid := Ready(TOKEN, act)];
    LeadsFurther(s, begun, Gated(s, rid, act, d));
  }

  lemma GateReads(s: System, rid: RequestId, act: Act, d: Draw)
    requires rid in s.requests && s.requests[rid] == Request.Gate(TOKEN, act) && SignedIn(s) && Purpose(act)
    ensures AfterCall(s, rid, d) == Gated(s, rid, act, d)
  {
    assert Apply(s.t, 0, NextCall(s.requests[rid], d, s.cfg)) == Effect(s.t, SessionReply(5, FirstSession()));
    assert s.creators + map[] == s.creators && s.tokens + {} == s.tokens;
  }

  /** Different random bytes give an unused refresh token. */
  lemma UnusedToken(ss: map<Id, Session>, a: seq<Base64.Byte>, b: seq<Base64.Byte>)
    requires a != b && forall i | i in ss :: ss[i].hash == CreateRefreshTokenPair(a).hash
    ensures !HashKnown(ss, CreateRefreshTokenPair(b).hash)
  {
    HashDeterminesBytes(a, b);
  }
}
