/** The whole service: the tables, one clock, and any number of requests in flight, interleaved
    at the granularity of database calls. */
module Machine {
  import opened Credentials
  import opened Schema
  import opened SessionSql
  import opened Requests

  type RequestId = nat

  /** `used` holds every UUID ever drawn, `tokens` every access token ever signed, and `creators`
      the user each organization was ever created for; the last is history, read by no step. */
  datatype System = System(
    cfg: Config,
    t: Tables,
    now: Time,
    used: set<Id>,
    tokens: set<AccessToken>,
    requests: map<RequestId, Request>,
    creators: map<Id, Id>)

  datatype Event =
    | Tick(to: Time)
    | Begin(rid: RequestId, request: Request)
    | Call(rid: RequestId, draw: Draw)
    | Abandon(rid: RequestId)

  /** The requests a client can start: a signed, unexpired access token for those behind the
      authentication middleware, validated input for the others. */
  predicate Startable(s: System, r: Request)
  {
    match r
    case LoginLookup(username, email, _) => username != "" || email != ""
    case Refreshing(cookie, _) => ValidateRefreshToken(cookie, s.cfg.refreshTokenLen).Ok?
    case Registering(_, _, _, phoneRaw) => ValidatePhone(phoneRaw, s.cfg.phoneRequired).Ok?
    case Gate(tok, _) => tok in s.tokens && s.now < tok.expiresAt
    case _ => false
  }

  /** UUIDs are never drawn twice, and a clock reading is never in the future. */
  predicate Drawable(s: System, d: Draw)
  {
    && d.id !in s.used && d.family !in s.used && d.id != d.family
    && |d.raw| == s.cfg.refreshTokenLen
    && d.readAt <= s.now
  }

  predicate Enabled(s: System, e: Event)
  {
    match e
    case Tick(to) => s.now <= to
    case Begin(rid, r) => rid !in s.requests && Startable(s, r)
    case Call(rid, d) => rid in s.requests && Drawable(s, d)
    case Abandon(rid) => rid in s.requests
  }

  function CallOf(s: System, e: Event): DbCall
    requires Enabled(s, e) && e.Call?
  {
    NextCall(s.requests[e.rid], e.draw, s.cfg)
  }

  /** The access token signed right after a session was created or rotated. */
  function Signed(s: System, t: Tables, r: Request, reply: Reply): set<AccessToken>
  {
    if (r.LoginCreate? || r.Refreshing?) && reply.SessionReply? && reply.session.subject in t.subjects
    then
      var subject := reply.session.subject;
      {AccessToken(subject, reply.sessionId, t.subjects[subject], s.now + s.cfg.tokenTtl)}
    else {}
  }

  function Created(call: DbCall, reply: Reply): map<Id, Id>
  {
    if call.CallCreateOrganization? && reply.Done? then map[call.org := call.owner] else map[]
  }

  ghost function AfterCall(s: System, rid: RequestId, d: Draw): System
    requires rid in s.requests
  {
    var r := s.requests[rid];
    var call := NextCall(r, d, s.cfg);
    var effect := Apply(s.t, s.now, call);
    var p := Continue(r, effect.reply, s.now, d, s.cfg);
    s.(t := effect.t,
       used := s.used + {d.id, d.family},
       tokens := s.tokens + Signed(s, effect.t, r, effect.reply),
       requests := if p.Pending? then s.requests[rid := p.next] else s.requests - {rid},
       creators := s.creators + Created(call, effect.reply))
  }

  /** The reply to request rid's next call. */
  ghost function ReplyOf(s: System, rid: RequestId, d: Draw): Reply
    requires rid in s.requests
  {
    Apply(s.t, s.now, NextCall(s.requests[rid], d, s.cfg)).reply
  }

  /** Where request rid stands after its call: at its next one, or finished. */
  ghost function ProgressOf(s: System, rid: RequestId, d: Draw): Progress
    requires rid in s.requests
  {
    var r := s.requests[rid];
    Continue(r, ReplyOf(s, rid, d), s.now, d, s.cfg)
  }

  ghost function Next(s: System, e: Event): System
    requires Enabled(s, e)
  {
    match e
    case Tick(to) => s.(now := to)
    case Begin(rid, r) => s.(requests := s.requests[rid := r])
    case Call(rid, d) => AfterCall(s, rid, d)
    case Abandon(rid) => s.(requests := s.requests - {rid})
  }

  predicate Initial(s: System)
  {
    s.t == EMPTY && s.used == {} && s.tokens == {} && s.requests == map[] && s.creators == map[]
  }

  /** A run: states joined by events, each enabled where it happens. */
  datatype Run = Run(states: seq<System>, events: seq<Event>)

  predicate WellFormed(run: Run)
  {
    |run.states| == |run.events| + 1
  }

  ghost predicate StepAt(run: Run, i: nat)
    requires WellFormed(run) && i < |run.events|
  {
    Enabled(run.states[i], run.events[i]) && run.states[i + 1] == Next(run.states[i], run.events[i])
  }

  ghost predicate Steps(run: Run)
  {
    WellFormed(run) && forall i | 0 <= i < |run.events| :: StepAt(run, i)
  }

  /** Event i of a run is a database call. */
  predicate CallsAt(run: Run, i: nat)
    requires WellFormed(run) && i < |run.events|
  {
    run.events[i].Call? && Enabled(run.states[i], run.events[i])
  }

  /** The database call of event i, and its reply. */
  function CallAt(run: Run, i: nat): DbCall
    requires WellFormed(run) && i < |run.events| && CallsAt(run, i)
  {
    CallOf(run.states[i], run.events[i])
  }

  ghost function ReplyAt(run: Run, i: nat): Reply
    requires WellFormed(run) && i < |run.events| && CallsAt(run, i)
  {
    Apply(run.states[i].t, run.states[i].now, CallAt(run, i)).reply
  }

  /** A run from the empty database. */
  ghost predicate IsRun(run: Run)
  {
    Steps(run) && Initial(run.states[0])
  }

  ghost predicate Reachable(s: System)
  {
    exists run :: IsRun(run) && s == run.states[|run.states| - 1]
  }

  function Prefix(run: Run, n: nat): Run
    requires WellFormed(run) && n < |run.states|
  {
    Run(run.states[..n + 1], run.events[..n])
  }

  /** Every state of a run from the empty database is reachable. */
  lemma RunStatesAreReachable(run: Run, n: nat)
    requires IsRun(run) && n < |run.states|
    ensures Reachable(run.states[n])
  {
    var p := Prefix(run, n);
    forall i | 0 <= i < |p.events| ensures StepAt(p, i) {
      assert StepAt(run, i);
    }
    assert IsRun(p) && p.states[|p.states| - 1] == run.states[n];
  }

  /** Some run, from any state, leads from s to s'. */
  ghost predicate Leads(s: System, s': System)
  {
    exists run :: Steps(run) && run.states[0] == s && run.states[|run.states| - 1] == s'
  }

  lemma OneEventLeads(s: System, e: Event)
    requires Enabled(s, e)
    ensures Leads(s, Next(s, e))
  {
    var run := Run([s, Next(s, e)], [e]);
    assert StepAt(run, 0);
    assert Steps(run) && run.states[0] == s && run.states[|run.states| - 1] == Next(s, e);
  }

  function Joined(a: Run, b: Run): Run
    requires WellFormed(a) && WellFormed(b)
  {
    Run(a.states + b.states[1..], a.events + b.events)
  }

  lemma JoinedSteps(a: Run, b: Run)
    requires Steps(a) && Steps(b) && a.states[|a.states| - 1] == b.states[0]
    ensures Steps(Joined(a, b))
    ensures Joined(a, b).states[|Joined(a, b).states| - 1] == b.states[|b.states| - 1]
  {
    var run := Joined(a, b);
    forall i | 0 <= i < |run.events| ensures StepAt(run, i) {
      if i < |a.events| {
        assert StepAt(a, i);
      } else {
        assert StepAt(b, i - |a.events|);
      }
    }
  }

  lemma LeadsFurther(s: System, s': System, s'': System)
    requires Leads(s, s') && Leads(s', s'')
    ensures Leads(s, s'')
  {
    var a :| Steps(a) && a.states[0] == s && a.states[|a.states| - 1] == s';
    var b :| Steps(b) && b.states[0] == s' && b.states[|b.states| - 1] == s'';
    JoinedSteps(a, b);
    assert Joined(a, b).states[0] == s;
  }

  /** What a reachable state leads to is reachable. */
  lemma LeadsToReachable(s: System, s': System)
    requires Reachable(s) && Leads(s, s')
    ensures Reachable(s')
  {
    var a :| IsRun(a) && s == a.states[|a.states| - 1];
    var b :| Steps(b) && b.states[0] == s && b.states[|b.states| - 1] == s';
    JoinedSteps(a, b);
    assert IsRun(Joined(a, b));
  }
}
