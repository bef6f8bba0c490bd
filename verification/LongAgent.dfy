/** A refresh that fails for its User-Agent header alone. */
module LongAgent {
  import opened Credentials
  import opened Schema
  import opened SessionSql
  import opened Machine
  import opened SessionRuns
  import opened FirstLogin

  /** A reachable state with a live session of an active user and an issue that would rotate it,
      but for a user agent of one character too many; with that agent the refresh fails and leaves
      the token as it was. */
  lemma LongAgentBlocksRefresh() returns (s: System, id: Id, issue: Issue, short: Client)
    ensures Reachable(s) && id in s.t.sessions
    ensures issue.client.agent.Agent? && |issue.client.agent.text| == AGENT_WIDTH + 1
    ensures var hash := s.t.sessions[id].hash;
            && RefreshAuthSession(s.t, s.now, hash, issue) == Effect(s.t, Failed(QueryError))
            && RefreshAuthSession(s.t, s.now, hash, issue.(client := short)).reply.SessionReply?
  {
    var agent := seq(AGENT_WIDTH + 1, _ => 'x');
    s, id, short := S5, 5, CLIENT;
    LogsIn();
    issue := Issue(7, CreateRefreshTokenPair([1]).hash, 100, Client(Inet("192.0.2.1"), Agent(agent)));
    StorableExactly(issue.client);
    assert agent[AGENT_WIDTH] != ' ';
    UnstorableClientBlocksRefresh(s, id, issue);
    UnusedToken(s.t.sessions, [0], [1]);
    RefreshSucceedsExactly(s, id, issue.(client := short));
  }
}
