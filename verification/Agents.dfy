/** Agent records and the agent half of the in-memory repository (internal/store/memory.go). */
module Agents {
  import opened Basics
  import opened Runs
  import opened Workflows

  datatype Agent = Agent(
    id: string,
    name: string,
    systemPrompt: string,
    runtime: string,
    protocol: string,
    endpoint: string,
    model: string,
    capabilities: seq<string>,
    effectIdempotency: string,
    maxConcurrency: int,
    priority: int,
    createdAt: Time,
    updatedAt: Time,
    version: int)

  datatype AgentError = Invalid | AgentNotFound | Conflict | InUse

  /** `validated` is the record after normalisation and validation, `None` when they reject it. */
  function Created(agents: map<string, Agent>, validated: Option<Agent>): Result<Agent, AgentError> {
    if validated.None? then Err(Invalid)
    else if validated.value.id in agents then Err(Conflict)
    else Ok(validated.value)
  }

  function Updated(agents: map<string, Agent>, validated: Option<Agent>, expected: int, now: Time): Result<Agent, AgentError> {
    if validated.None? then Err(Invalid)
    else if validated.value.id !in agents then Err(AgentNotFound)
    else
      var existing := agents[validated.value.id];
      if expected < 1 || existing.version != expected then Err(Conflict)
      else Ok(validated.value.(createdAt := existing.createdAt, updatedAt := now, version := existing.version + 1))
  }

  /** A run or a workflow step names the agent. */
  predicate Referenced(runs: map<string, Run>, workflows: map<string, Workflow>, id: string) {
    || (exists r <- runs :: runs[r].agentId == id)
    || (exists w <- workflows :: NamedIn(workflows[w], id))
  }

  predicate NamedIn(w: Workflow, id: string) {
    exists s <- w.def.steps :: s.agentId == id
  }

  method NamedByRun(runs: map<string, Run>, id: string) returns (named: bool)
    ensures named <==> exists r <- runs :: runs[r].agentId == id
  {
    var rest := runs.Keys;
    while rest != {}
      invariant rest <= runs.Keys
      invariant forall r <- runs :: r !in rest ==> runs[r].agentId != id
      decreases rest
    {
      var r :| r in rest;
      if runs[r].agentId == id {
        return true;
      }
      rest := rest - {r};
    }
    named := false;
  }

  method NamedByWorkflow(workflows: map<string, Workflow>, id: string) returns (named: bool)
    ensures named <==> exists w <- workflows :: NamedIn(workflows[w], id)
  {
    var rest := workflows.Keys;
    while rest != {}
      invariant rest <= workflows.Keys
      invariant forall w <- workflows :: w !in rest ==> !NamedIn(workflows[w], id)
      decreases rest
    {
      var w :| w in rest;
      var steps := workflows[w].def.steps;
      for k := 0 to |steps|
        invariant forall j :: 0 <= j < k ==> steps[j].agentId != id
      {
        if steps[k].agentId == id {
          assert steps[k] in steps && NamedIn(workflows[w], id);
          return true;
        }
      }
      rest := rest - {w};
    }
    named := false;
  }

  function DeleteError(agents: map<string, Agent>, id: string, expected: int, referenced: bool): Option<AgentError> {
    if id !in agents then Some(AgentNotFound)
    else if expected < 1 || agents[id].version != expected then Some(Conflict)
    else if referenced then Some(InUse)
    else None
  }

  class AgentMemory {
    var agents: map<string, Agent>

    constructor ()
      ensures agents == map[]
    {
      agents := map[];
    }

    method CreateAgent(validated: Option<Agent>) returns (r: Result<Agent, AgentError>)
      modifies this
      ensures r == Created(old(agents), validated)
      ensures r.Ok? <==> validated.Some? && validated.value.id !in old(agents)
      ensures r.Ok? ==> r.value == validated.value
      ensures agents == if r.Ok? then old(agents)[r.value.id := r.value] else old(agents)
    {
      if validated.None? {
        return Err(Invalid);
      }
      var agent := validated.value;
      if agent.id in agents {
        return Err(Conflict);
      }
      agents := agents[agent.id := agent];
      r := Ok(agent);
    }

    method UpdateAgent(validated: Option<Agent>, expected: int, now: Time) returns (r: Result<Agent, AgentError>)
      modifies this
      ensures r == Updated(old(agents), validated, expected, now)
      ensures r.Ok? <==> validated.Some? && validated.value.id in old(agents) && old(agents)[validated.value.id].version == expected >= 1
      ensures validated.Some? && validated.value.id in old(agents) && r.Err? ==> r == Err(Conflict)
      ensures r.Ok? ==> && r.value.version == expected + 1 && r.value.updatedAt == now
                        && r.value.createdAt == old(agents)[validated.value.id].createdAt
                        && r.value == validated.value.(version := r.value.version, updatedAt := now, createdAt := r.value.createdAt)
      ensures agents == if r.Ok? then old(agents)[r.value.id := r.value] else old(agents)
    {
      if validated.None? {
        return Err(Invalid);
      }
      var agent := validated.value;
      if agent.id !in agents {
        return Err(AgentNotFound);
      }
      var existing := agents[agent.id];
      if expected < 1 || existing.version != expected {
        return Err(Conflict);
      }
      agent := agent.(createdAt := existing.createdAt, updatedAt := now, version := existing.version + 1);
      agents := agents[agent.id := agent];
      r := Ok(agent);
    }

    method DeleteAgent(id: string, expected: int, runs: map<string, Run>, workflows: map<string, Workflow>) returns (err: Option<AgentError>)
      modifies this
      ensures err == DeleteError(old(agents), id, expected, Referenced(runs, workflows, id))
      ensures err.None? <==> id in old(agents) && old(agents)[id].version == expected >= 1 && !Referenced(runs, workflows, id)
      ensures err == Some(InUse) ==> id in old(agents) && old(agents)[id].version == expected
      ensures agents == if err.None? then old(agents) - {id} else old(agents)
    {
      if id !in agents {
        return Some(AgentNotFound);
      }
      if expected < 1 || agents[id].version != expected {
        return Some(Conflict);
      }
      var named := NamedByRun(runs, id);
      if !named {
        named := NamedByWorkflow(workflows, id);
      }
      if named {
        return Some(InUse);
      }
      agents := agents - {id};
      err := None;
    }

    method GetAgent(id: string) returns (r: Result<Agent, AgentError>)
      ensures r == if id in agents then Ok(agents[id]) else Err(AgentNotFound)
    {
      if id !in agents {
        return Err(AgentNotFound);
      }
      r := Ok(agents[id]);
    }
  }
}
