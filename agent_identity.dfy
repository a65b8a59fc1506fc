/** The identity an agent presents with each tool call, and the literal
    allow-list check `validateAgentAccess` made on it. */
module AgentIdentity {
  import opened Wrappers

  datatype TrustLevel = High | Medium | Low

  datatype Agent = Agent(agentId: string, allowedTools: seq<string>, trustLevel: TrustLevel)

  function NotAuthorizedMessage(agentId: string, toolName: string): string {
    "Agent " + agentId + " not authorized for tool " + toolName
  }

  /** `validateAgentAccess`: throws unless `toolName` is literally one of the
      agent's allowed tools. `'*'` is an ordinary entry here, not a wildcard,
      and the trust level plays no part. */
  function ValidateAgentAccess(agent: Agent, toolName: string): (r: Outcome)
    ensures r.Pass? <==> exists i :: 0 <= i < |agent.allowedTools| && agent.allowedTools[i] == toolName
    ensures r.Fail? ==> r.message == NotAuthorizedMessage(agent.agentId, toolName)
  {
    if toolName in agent.allowedTools then Pass
    else Fail(NotAuthorizedMessage(agent.agentId, toolName))
  }

  /** A `'*'` entry grants nothing but a tool literally named `'*'`. */
  lemma StarIsNotWildcard(agent: Agent, toolName: string)
    requires agent.allowedTools == ["*"] && toolName != "*"
    ensures ValidateAgentAccess(agent, toolName).Fail?
  {
  }

  /** The decision and its message do not depend on the trust level. */
  lemma TrustLevelIrrelevant(agent: Agent, level: TrustLevel, toolName: string)
    ensures ValidateAgentAccess(agent, toolName)
         == ValidateAgentAccess(agent.(trustLevel := level), toolName)
  {
  }
}
